/** What holds in every store that any interleaving of transactions can reach. */
module LedgerInvariant {
  import opened Wrappers
  import opened Tasks
  import opened TaskIds
  import opened Ledger

  /** The task ids of a series are exactly its numbers 1 up to the counter. */
  ghost predicate Numbered(s: Store) {
    forall id: TaskId :: id in s.tasks <==> 1 <= id.number <= LastSequence(s.counters, Series(id.dept, id.year))
  }

  /** A task carries what its draft proposed. */
  predicate MadeFrom(t: Task, d: Draft) {
    t.createdBy == d.requester && t.assignee == d.proposal.assignee && t.department == d.proposal.department
    && t.text == d.proposal.text && t.due == d.proposal.due
  }

  /** A task's draft is consumed, names the task, and proposed it. */
  predicate TaskMatched(s: Store, id: TaskId)
    requires id in s.tasks && id in s.origins
  {
    var o := s.origins[id];
    o in s.drafts && s.drafts[o].state == Consumed && s.drafts[o].taskId == Some(id)
    && MadeFrom(s.tasks[id], s.drafts[o]) && s.tasks[id].department == id.dept
  }

  /** A consumed draft names a task made from it; no other draft names a task. */
  predicate DraftMatched(s: Store, d: string)
    requires d in s.drafts
  {
    var t := s.drafts[d].taskId;
    if s.drafts[d].state == Consumed then t.Some? && t.value in s.origins && s.origins[t.value] == d else t == None
  }

  /** Consumed drafts and tasks correspond one to one. */
  ghost predicate Matched(s: Store) {
    && s.origins.Keys == s.tasks.Keys
    && (forall id | id in s.tasks :: TaskMatched(s, id))
    && (forall d | d in s.drafts :: DraftMatched(s, d))
  }

  ghost predicate Structured(s: Store) {
    Numbered(s) && Matched(s)
  }

  ghost predicate TasksOk(cfg: Settings, tasks: map<TaskId, Task>) {
    forall id | id in tasks :: TaskOk(cfg, tasks[id])
  }

  ghost predicate Inv(cfg: Settings, s: Store) {
    TasksOk(cfg, s.tasks) && Structured(s)
  }

  lemma EmptyInv(cfg: Settings)
    ensures Inv(cfg, EMPTY)
  {
  }

  // ----- rows stay legal -----

  lemma FlagKeepsTaskOk(cfg: Settings, t: Task, overdue: bool)
    requires TaskOk(cfg, t)
    ensures TaskOk(cfg, t.(overdue := overdue))
  {
    assert RolesOf(cfg, t.(overdue := overdue)) == RolesOf(cfg, t);
  }

  lemma TaskCommandKeepsTasksOk(cfg: Settings, s: Store, c: Command)
    requires TasksOk(cfg, s.tasks) && (c.OnTask? || c.RefreshOverdue?)
    ensures TasksOk(cfg, ApplyTask(cfg, s, c).0.tasks)
  {
    match c
    case OnTask(id, action, now) =>
      if id in s.tasks { ActKeepsTaskOk(cfg, s.tasks[id], action, now); }
    case RefreshOverdue(today) =>
      forall id | id in s.tasks
        ensures TaskOk(cfg, Flagged(s.tasks, today)[id])
      {
        FlagKeepsTaskOk(cfg, s.tasks[id], IsOverdue(s.tasks[id], today));
      }
  }

  lemma ClaimKeepsTasksOk(cfg: Settings, s: Store, draftId: string, actor: UserId, now: int, year: nat, crashes: bool)
    requires TasksOk(cfg, s.tasks)
    ensures TasksOk(cfg, ApplyClaim(s, draftId, actor, now, year, crashes).0.tasks)
  {
    if draftId in s.drafts {
      var p := s.drafts[draftId].proposal;
      NewTaskOk(cfg, p.department, p.text, p.due, actor, p.assignee, now);
    }
  }

  lemma ApplyKeepsTasksOk(cfg: Settings, s: Store, c: Command)
    requires TasksOk(cfg, s.tasks)
    ensures TasksOk(cfg, Apply(cfg, s, c).0.tasks)
  {
    if c.OnTask? || c.RefreshOverdue? {
      TaskCommandKeepsTasksOk(cfg, s, c);
    } else if c.Claim? {
      ClaimKeepsTasksOk(cfg, s, c.draftId, c.actor, c.now, c.year, c.crashes);
    }
  }

  // ----- numbering and matching survive each transaction -----

  lemma SameRowsMatched(s: Store, r: Store)
    requires Matched(s)
    requires r == s.(tasks := r.tasks, chats := r.chats) && r.tasks.Keys == s.tasks.Keys
    requires forall id | id in s.tasks :: SameTask(s.tasks[id], r.tasks[id])
    ensures Matched(r)
  {
    forall id | id in r.tasks
      ensures TaskMatched(r, id)
    {
      assert TaskMatched(s, id);
    }
    forall d | d in r.drafts
      ensures DraftMatched(r, d)
    {
      assert DraftMatched(s, d);
    }
  }

  lemma TaskCommandKeepsIdentity(cfg: Settings, s: Store, c: Command)
    requires c.OnTask? || c.RefreshOverdue?
    ensures var r := ApplyTask(cfg, s, c).0;
            r == s.(tasks := r.tasks) && r.tasks.Keys == s.tasks.Keys
            && forall id | id in s.tasks :: SameTask(s.tasks[id], r.tasks[id])
  {
    if c.OnTask? && c.taskId in s.tasks {
      ActKeepsIdentity(cfg, s.tasks[c.taskId], c.action, c.now);
    }
  }

  lemma TaskCommandKeepsStructure(cfg: Settings, s: Store, c: Command)
    requires Structured(s) && (c.OnTask? || c.RefreshOverdue?)
    ensures Structured(ApplyTask(cfg, s, c).0)
  {
    var r := ApplyTask(cfg, s, c).0;
    TaskCommandKeepsIdentity(cfg, s, c);
    assert forall id :: id in r.tasks <==> id in r.tasks.Keys;
    SameRowsMatched(s, r);
  }

  lemma ChatCommandKeepsStructure(cfg: Settings, s: Store, c: Command)
    requires Structured(s) && (c.BeginEvent? || c.SetPending? || c.GetPending? || c.ClearPending?)
    ensures Structured(ApplyChat(cfg, s, c).0)
  {
    var r := ApplyChat(cfg, s, c).0;
    assert r == s.(chats := r.chats);
    SameRowsMatched(s, r);
  }

  /** Changing a draft that is not consumed, before and after, keeps the matching. */
  lemma RewrittenDraft(s: Store, id: string, d: Draft)
    requires Matched(s)
    requires id in s.drafts ==> s.drafts[id].state != Consumed
    requires d.state != Consumed && d.taskId == None
    ensures Matched(s.(drafts := s.drafts[id := d]))
  {
    var r := s.(drafts := s.drafts[id := d]);
    forall t | t in r.tasks
      ensures TaskMatched(r, t)
    {
      assert TaskMatched(s, t);
    }
    forall x | x in r.drafts
      ensures DraftMatched(r, x)
    {
      assert x != id ==> DraftMatched(s, x);
    }
  }

  lemma WithTaskKeepsNumbered(s: Store, draftId: string, actor: UserId, now: int, year: nat)
    requires Numbered(s) && draftId in s.drafts
    ensures var (r, id) := WithTask(s, draftId, actor, now, year); id !in s.tasks && Numbered(r)
  {
  }

  lemma WithTaskKeepsMatched(s: Store, draftId: string, actor: UserId, now: int, year: nat)
    requires Matched(s) && draftId in s.drafts
    requires s.drafts[draftId].requester == actor && s.drafts[draftId].state != Consumed
    requires WithTask(s, draftId, actor, now, year).1 !in s.tasks
    ensures Matched(WithTask(s, draftId, actor, now, year).0)
  {
    var (r, id) := WithTask(s, draftId, actor, now, year);
    assert r.origins.Keys == r.tasks.Keys;
    forall t | t in r.tasks
      ensures TaskMatched(r, t)
    {
      assert t != id ==> TaskMatched(s, t);
    }
    forall d | d in r.drafts
      ensures DraftMatched(r, d)
    {
      assert d != draftId ==> DraftMatched(s, d);
    }
  }

  lemma SweepKeepsMatched(s: Store, id: string, now: int)
    requires Matched(s)
    ensures Matched(s.(drafts := Swept(s.drafts, id, now)))
  {
    if Swept(s.drafts, id, now) != s.drafts {
      assert DraftMatched(s, id);
      RewrittenDraft(s, id, s.drafts[id].(state := Withdrawn));
    }
  }

  /** In a reachable store, claiming a live draft never collides with an existing task. */
  lemma ClaimKeepsStructure(s: Store, draftId: string, actor: UserId, now: int, year: nat, crashes: bool)
    requires Structured(s)
    ensures Structured(ApplyClaim(s, draftId, actor, now, year, crashes).0)
    ensures Owned(s.drafts, draftId, actor, now) == Live && !crashes
            ==> ApplyClaim(s, draftId, actor, now, year, crashes).1.TaskCreated?
  {
    SweepKeepsMatched(s, draftId, now);
    if Owned(s.drafts, draftId, actor, now) == Live {
      WithTaskKeepsNumbered(s, draftId, actor, now, year);
      WithTaskKeepsMatched(s, draftId, actor, now, year);
    }
  }

  lemma StashKeepsMatched(s: Store, c: Command)
    requires Matched(s) && c.Stash?
    ensures Matched(ApplyDraft(s, c).0)
  {
    if c.draftId !in s.drafts {
      RewrittenDraft(s, c.draftId, Draft(c.requester, c.proposal, Active, c.now + DRAFT_TTL, None));
    }
  }

  lemma DiscardKeepsMatched(s: Store, c: Command)
    requires Matched(s) && c.Discard?
    ensures Matched(ApplyDraft(s, c).0)
  {
    SweepKeepsMatched(s, c.draftId, c.now);
    if Owned(s.drafts, c.draftId, c.actor, c.now) == Live {
      assert DraftMatched(s, c.draftId);
      RewrittenDraft(s, c.draftId, s.drafts[c.draftId].(state := Withdrawn));
    }
  }

  lemma DraftCommandKeepsStructure(s: Store, c: Command)
    requires Structured(s) && (c.Stash? || c.Peek? || c.CompletedId? || c.Discard?)
    ensures Structured(ApplyDraft(s, c).0)
  {
    DraftCommandKeepsNumbers(s, c);
    match c
    case Stash(_, _, _, _) => StashKeepsMatched(s, c);
    case Peek(_, _, _) => PeekKeepsMatched(s, c);
    case CompletedId(_, _) =>
    case Discard(_, _, _) => DiscardKeepsMatched(s, c);
  }

  lemma DraftCommandKeepsNumbers(s: Store, c: Command)
    requires c.Stash? || c.Peek? || c.CompletedId? || c.Discard?
    ensures var r := ApplyDraft(s, c).0; r.tasks == s.tasks && r.counters == s.counters
  {
  }

  lemma PeekKeepsMatched(s: Store, c: Command)
    requires Matched(s) && c.Peek?
    ensures Matched(ApplyDraft(s, c).0)
  {
    SweepKeepsMatched(s, c.draftId, c.now);
  }

  lemma ApplyKeepsStructure(cfg: Settings, s: Store, c: Command)
    requires Structured(s)
    ensures Structured(Apply(cfg, s, c).0)
  {
    if c.OnTask? || c.RefreshOverdue? {
      TaskCommandKeepsStructure(cfg, s, c);
    } else if c.BeginEvent? || c.SetPending? || c.GetPending? || c.ClearPending? {
      ChatCommandKeepsStructure(cfg, s, c);
    } else if c.Claim? {
      ClaimKeepsStructure(s, c.draftId, c.actor, c.now, c.year, c.crashes);
    } else {
      DraftCommandKeepsStructure(s, c);
    }
  }

  /** Every transaction, whatever its outcome, keeps the invariant. */
  lemma ApplyKeepsInv(cfg: Settings, s: Store, c: Command)
    requires Inv(cfg, s)
    ensures Inv(cfg, Apply(cfg, s, c).0)
  {
    ApplyKeepsTasksOk(cfg, s, c);
    ApplyKeepsStructure(cfg, s, c);
  }

  /** Every store reached by any sequence of transactions satisfies the invariant. */
  lemma {:induction false} RunKeepsInv(cfg: Settings, s: Store, commands: seq<Command>)
    requires Inv(cfg, s)
    ensures Inv(cfg, Run(cfg, s, commands))
  {
    if commands != [] {
      RunKeepsInv(cfg, s, commands[..|commands| - 1]);
      ApplyKeepsInv(cfg, Run(cfg, s, commands[..|commands| - 1]), commands[|commands| - 1]);
    }
  }

  lemma {:induction false} RunKeepsStructure(cfg: Settings, s: Store, commands: seq<Command>)
    requires Structured(s)
    ensures Structured(Run(cfg, s, commands))
  {
    if commands != [] {
      RunKeepsStructure(cfg, s, commands[..|commands| - 1]);
      ApplyKeepsStructure(cfg, Run(cfg, s, commands[..|commands| - 1]), commands[|commands| - 1]);
    }
  }
}
