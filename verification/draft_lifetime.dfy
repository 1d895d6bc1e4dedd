/** One draft from when it is stashed: what looking, claiming and discarding answer, and when. */
module DraftLifetime {
  import opened Domain
  import opened Wrappers
  import opened Tasks
  import opened TaskIds
  import opened Ledger
  import opened LedgerInvariant
  import opened LedgerProperties

  // ----- a draft waits -----

  /** The draft waits for its requester until it expires. */
  predicate Waiting(s: Store, d: string, requester: UserId, proposal: Proposal, expiresAt: int) {
    && d in s.drafts && s.drafts[d].requester == requester && s.drafts[d].proposal == proposal
    && s.drafts[d].state == Active && s.drafts[d].expiresAt == expiresAt && s.drafts[d].taskId == None
  }

  /**
   * What leaves a draft as it is: whatever others do, and what its requester does with other drafts;
   * also, within the draft's time, a look of its requester or a claim that crashes.
   */
  predicate LeavesDraft(c: Command, d: string, requester: UserId, expiresAt: int) {
    && (c.Discard? ==> c.draftId != d || c.actor != requester)
    && (c.Claim? && c.draftId == d && c.actor == requester ==> c.crashes && c.now < expiresAt)
    && (c.Peek? && c.draftId == d && c.actor == requester ==> c.now < expiresAt)
  }

  lemma ClaimLeaves(s: Store, c: Command, d: string, requester: UserId, proposal: Proposal, expiresAt: int)
    requires c.Claim? && Waiting(s, d, requester, proposal, expiresAt) && LeavesDraft(c, d, requester, expiresAt)
    ensures var r := ApplyClaim(s, c.draftId, c.actor, c.now, c.year, c.crashes).0;
            Waiting(r, d, requester, proposal, expiresAt)
  {
  }

  lemma LookLeaves(s: Store, c: Command, d: string, requester: UserId, proposal: Proposal, expiresAt: int)
    requires c.Peek? || c.Discard?
    requires Waiting(s, d, requester, proposal, expiresAt) && LeavesDraft(c, d, requester, expiresAt)
    ensures Waiting(ApplyDraft(s, c).0, d, requester, proposal, expiresAt)
  {
  }

  lemma CommandLeaves(cfg: Settings, s: Store, c: Command, d: string, requester: UserId, proposal: Proposal,
                      expiresAt: int)
    requires Waiting(s, d, requester, proposal, expiresAt) && LeavesDraft(c, d, requester, expiresAt)
    ensures Waiting(Apply(cfg, s, c).0, d, requester, proposal, expiresAt)
  {
    match c
    case Stash(_, _, _, _) =>
    case CompletedId(_, _) =>
    case Claim(_, _, _, _, _) => ClaimLeaves(s, c, d, requester, proposal, expiresAt);
    case Peek(_, _, _) => LookLeaves(s, c, d, requester, proposal, expiresAt);
    case Discard(_, _, _) => LookLeaves(s, c, d, requester, proposal, expiresAt);
    case _ => OtherCommandsKeepDrafts(cfg, s, c);
  }

  lemma {:induction false} RunLeavesDraft(cfg: Settings, s: Store, commands: seq<Command>, d: string,
                                          requester: UserId, proposal: Proposal, expiresAt: int)
    requires Waiting(s, d, requester, proposal, expiresAt)
    requires forall c | c in commands :: LeavesDraft(c, d, requester, expiresAt)
    ensures Waiting(Run(cfg, s, commands), d, requester, proposal, expiresAt)
  {
    if commands != [] {
      var front, c := commands[..|commands| - 1], commands[|commands| - 1];
      assert c in commands && forall x | x in front :: x in commands;
      RunLeavesDraft(cfg, s, front, d, requester, proposal, expiresAt);
      CommandLeaves(cfg, Run(cfg, s, front), c, d, requester, proposal, expiresAt);
    }
  }

  /** The transaction stashed a draft, and nothing after it has ended that draft. */
  ghost predicate StashedAt(cfg: Settings, s: Store, commands: seq<Command>, i: nat) {
    && i < |commands| && commands[i].Stash? && ReplyAt(cfg, s, commands, i) == Silent
    && forall c | c in commands[i + 1..] ::
         LeavesDraft(c, commands[i].draftId, commands[i].requester, HalfAnHourAfter(commands[i].now))
  }

  lemma StashedWaits(cfg: Settings, s: Store, commands: seq<Command>, i: nat)
    requires StashedAt(cfg, s, commands, i)
    ensures var c := commands[i];
            Waiting(Run(cfg, s, commands), c.draftId, c.requester, c.proposal, HalfAnHourAfter(c.now))
  {
    var c := commands[i];
    assert commands[..|commands|] == commands && commands[i + 1..|commands|] == commands[i + 1..];
    RunSplit(cfg, s, commands, i, |commands|);
    StashWaits(Run(cfg, s, commands[..i]), c);
    RunLeavesDraft(cfg, Run(cfg, s, commands[..i + 1]), commands[i + 1..], c.draftId, c.requester, c.proposal,
                   HalfAnHourAfter(c.now));
  }

  lemma StashWaits(s: Store, c: Command)
    requires c.Stash? && ApplyDraft(s, c).1 == Silent
    ensures Waiting(ApplyDraft(s, c).0, c.draftId, c.requester, c.proposal, HalfAnHourAfter(c.now))
  {
  }

  // ----- what it answers -----

  /** Of three replies, the one to another user, to the requester in time, or to the requester too late. */
  function ByWhomAndWhen(own: bool, inTime: bool, answer: Reply): Reply {
    if !own then Denied else if inTime then answer else DraftGone
  }

  /**
   * For half an hour a stashed draft is shown to its requester, with what it proposes, and can be
   * discarded; others are denied, and afterwards it is gone.
   */
  lemma StashedDraftIsShown(cfg: Settings, s: Store, commands: seq<Command>, i: nat, actor: UserId, now: int)
    requires StashedAt(cfg, s, commands, i)
    ensures var (at, d) := (Run(cfg, s, commands), commands[i].draftId);
            var (own, inTime) := (actor == commands[i].requester, now < HalfAnHourAfter(commands[i].now));
            && ApplyDraft(at, Peek(d, actor, now)).1 == ByWhomAndWhen(own, inTime, DraftShown(commands[i].proposal))
            && ApplyDraft(at, Discard(d, actor, now)).1 == ByWhomAndWhen(own, inTime, DraftDiscarded)
            && ApplyDraft(at, CompletedId(d, actor)).1 == ByWhomAndWhen(own, false, Silent)
  {
    StashedWaits(cfg, s, commands, i);
  }

  /** What the requester's discard, or a look too late, leaves of it. */
  lemma StashedDraftIsWithdrawn(cfg: Settings, s: Store, commands: seq<Command>, i: nat, now: int, c: Command)
    requires StashedAt(cfg, s, commands, i)
    requires || c == Discard(commands[i].draftId, commands[i].requester, now)
             || (c == Peek(commands[i].draftId, commands[i].requester, now) && HalfAnHourAfter(commands[i].now) <= now)
    ensures var (at, d) := (Run(cfg, s, commands), commands[i].draftId);
            d in at.drafts && ApplyDraft(at, c).0 == at.(drafts := at.drafts[d := at.drafts[d].(state := Withdrawn)])
  {
    StashedWaits(cfg, s, commands, i);
  }

  lemma WaitingIsClaimed(s: Store, d: string, requester: UserId, proposal: Proposal, expiresAt: int, actor: UserId,
                         now: int, year: nat, crashes: bool)
    requires Waiting(s, d, requester, proposal, expiresAt)
    requires Owned(s.drafts, d, actor, now) == Live && !crashes ==>
               ApplyClaim(s, d, actor, now, year, crashes).1.TaskCreated?
    ensures var id := TaskId(proposal.department, year,
                             LastSequence(s.counters, Series(proposal.department, year)) + 1);
            ApplyClaim(s, d, actor, now, year, crashes).1
            == ByWhomAndWhen(actor == requester, now < expiresAt, if crashes then Crashed else TaskCreated(id))
  {
  }

  /** When a claim of a waiting draft in a reachable store is answered how. */
  lemma StashedDraftIsClaimed(cfg: Settings, commands: seq<Command>, i: nat, at: Store, actor: UserId, now: int,
                              year: nat, crashes: bool)
    requires StashedAt(cfg, EMPTY, commands, i) && at == Run(cfg, EMPTY, commands)
    ensures var p := commands[i].proposal;
            var id := TaskId(p.department, year, LastSequence(at.counters, Series(p.department, year)) + 1);
            ApplyClaim(at, commands[i].draftId, actor, now, year, crashes).1
            == ByWhomAndWhen(actor == commands[i].requester, now < HalfAnHourAfter(commands[i].now),
                             if crashes then Crashed else TaskCreated(id))
  {
    var c := commands[i];
    StashedWaits(cfg, EMPTY, commands, i);
    EmptyInv(cfg);
    RunKeepsInv(cfg, EMPTY, commands);
    ClaimKeepsStructure(at, c.draftId, actor, now, year, crashes);
    WaitingIsClaimed(at, c.draftId, c.requester, c.proposal, HalfAnHourAfter(c.now), actor, now, year, crashes);
  }

  /**
   * The task that a claim makes of a stashed draft: as proposed, assigned to the proposed user by the
   * requester, with two entries in its trail; no other task is touched.
   */
  lemma ClaimMakesProposedTask(cfg: Settings, s: Store, commands: seq<Command>, i: nat, actor: UserId, now: int,
                               year: nat, id: TaskId)
    requires StashedAt(cfg, s, commands, i)
    requires ApplyClaim(Run(cfg, s, commands), commands[i].draftId, actor, now, year, false).1 == TaskCreated(id)
    ensures var (at, c) := (Run(cfg, s, commands), commands[i]);
            var r := ApplyClaim(at, c.draftId, actor, now, year, false).0;
            var trail := [AuditEntry(EvCreated, c.requester, now, Text("")),
                          AuditEntry(EvAssigned, c.requester, now, Text(c.proposal.assignee))];
            && id !in at.tasks
            && r.tasks == at.tasks[id := Task(c.proposal.department, c.proposal.text, c.requester,
                                              c.proposal.assignee, c.proposal.due, Assigned, false, "", "", None,
                                              None, trail)]
            && id.dept == c.proposal.department && id.year == year && r.chats == at.chats
            && r.drafts == at.drafts[c.draftId := Draft(c.requester, c.proposal, Consumed, HalfAnHourAfter(c.now),
                                                       Some(id))]
  {
    StashedWaits(cfg, s, commands, i);
  }
}
