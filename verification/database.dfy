/**
 * The store as a mutable object. Each public method is one transaction of the program; its
 * contract says that it performs exactly one command of the ledger, rollback included.
 */
module Storage {
  import opened Domain
  import opened Wrappers
  import opened Tasks
  import opened TaskIds
  import opened Ledger

  /** The flags of all rows but `rows` have been recomputed. */
  predicate PartlyFlagged(was: map<TaskId, Task>, now: map<TaskId, Task>, rows: set<TaskId>, today: int) {
    && now.Keys == was.Keys
    && forall id | id in was :: now[id] == if id in rows
        then was[id] else was[id].(overdue := IsOverdue(was[id], today))
  }

  lemma OneMoreFlagged(was: map<TaskId, Task>, rows: set<TaskId>, id: TaskId, today: int)
    requires id in rows && rows <= was.Keys
    ensures var wrong := Misflagged(was, today);
            |wrong - (rows - {id})| == |wrong - rows| + if was[id].overdue != IsOverdue(was[id], today) then 1 else 0
  {
    var wrong := Misflagged(was, today);
    if id in wrong {
      assert wrong - (rows - {id}) == (wrong - rows) + {id};
    } else {
      assert wrong - (rows - {id}) == wrong - rows;
    }
  }

  lemma FlaggedStep(was: map<TaskId, Task>, now: map<TaskId, Task>, rows: set<TaskId>, id: TaskId, today: int)
    requires id in rows && rows <= was.Keys
    ensures PartlyFlagged(was, now, rows, today) ==>
              && id in now && now[id] == was[id]
              && PartlyFlagged(was, now[id := now[id].(overdue := IsOverdue(now[id], today))], rows - {id}, today)
  {
  }

  /** The flags of all rows but `rows` have been recomputed, and `n` of them were wrong. */
  predicate Refreshing(was: map<TaskId, Task>, now: map<TaskId, Task>, rows: set<TaskId>, today: int, n: int) {
    rows <= was.Keys && PartlyFlagged(was, now, rows, today) && n == |Misflagged(was, today) - rows|
  }

  lemma RefreshBegins(was: map<TaskId, Task>, today: int)
    ensures Refreshing(was, was, was.Keys, today, 0)
  {
    assert Misflagged(was, today) - was.Keys == {};
  }

  lemma RefreshGoesOn(was: map<TaskId, Task>, now: map<TaskId, Task>, rows: set<TaskId>, id: TaskId, today: int, n: int)
    requires id in rows
    ensures Refreshing(was, now, rows, today, n) ==>
              && id in now
              && var wrong := now[id].overdue != IsOverdue(now[id], today);
                 var after := now[id := now[id].(overdue := IsOverdue(now[id], today))];
                 Refreshing(was, after, rows - {id}, today, n + if wrong then 1 else 0)
  {
    if Refreshing(was, now, rows, today, n) {
      FlaggedStep(was, now, rows, id, today);
      OneMoreFlagged(was, rows, id, today);
    }
  }

  lemma RefreshEnds(was: map<TaskId, Task>, now: map<TaskId, Task>, today: int, n: int)
    ensures Refreshing(was, now, {}, today, n) ==> now == Flagged(was, today) && n == |Misflagged(was, today)|
  {
    AllFlagged(was, now, today);
    assert Misflagged(was, today) - {} == Misflagged(was, today);
  }

  lemma AllFlagged(was: map<TaskId, Task>, now: map<TaskId, Task>, today: int)
    ensures PartlyFlagged(was, now, {}, today) ==> now == Flagged(was, today)
  {
    if PartlyFlagged(was, now, {}, today) {
      assert now.Keys == Flagged(was, today).Keys;
    }
  }

  class Database {
    const cfg: Settings
    var tasks: map<TaskId, Task>
    var counters: map<Series, nat>
    var drafts: map<string, Draft>
    var chats: map<ChatKey, Chat>
    ghost var origins: map<TaskId, string>

    ghost function State(): Store
      reads this
    {
      Store(tasks, counters, drafts, chats, origins)
    }

    constructor (cfg: Settings)
      ensures State() == EMPTY && this.cfg == cfg
    {
      this.cfg := cfg;
      tasks, counters, drafts, chats, origins := map[], map[], map[], map[], map[];
    }

    // ----- task rows (inside a transaction) -----

    method Transition(id: TaskId, target: Status, actor: UserId, event: AuditEvent, details: Note, now: int)
      returns (ok: bool)
      requires id in tasks
      modifies this`tasks
      ensures ok == CanTransition(old(tasks[id].status), target)
      ensures tasks == if ok
          then old(tasks)[id := Moved(old(tasks[id]), target, event, actor, now, details)] else old(tasks)
    {
      var current := tasks[id].status;
      if !CanTransition(current, target) {
        return false;
      }
      tasks := tasks[id := tasks[id].(status := target)];
      var audits := tasks[id].audit;
      audits := audits + [AuditEntry(event, actor, now, Clip(details))];
      tasks := tasks[id := tasks[id].(audit := audits)];
      ok := true;
    }

    method AssigneeMoves(id: TaskId, from: Status, event: AuditEvent, actor: UserId, now: int)
      returns (outcome: Outcome)
      requires CanTransition(from, InProgress)
      modifies this`tasks
      ensures id !in old(tasks) ==> outcome == NotFound && tasks == old(tasks)
      ensures id in old(tasks) ==>
        var r := Started(old(tasks[id]), from, event, actor, now);
        tasks == old(tasks)[id := r.0] && outcome == r.1
    {
      if id !in tasks {
        return NotFound;
      }
      if tasks[id].assignee != actor {
        return NotAssignee;
      }
      if tasks[id].status != from {
        return InvalidStatus;
      }
      var _ := Transition(id, InProgress, actor, event, Text(""), now);
      outcome := Done;
    }

    method MarkPendingClosure(id: TaskId, actor: UserId, notes: string, now: int) returns (ok: bool)
      requires id in tasks
      modifies this`tasks
      ensures var r := ClosureRequested(old(tasks[id]), actor, notes, now);
              tasks == old(tasks)[id := r.0] && r.1 == if ok then Done else InvalidStatus
    {
      if tasks[id].status == Assigned {
        var _ := Transition(id, InProgress, actor, EvAcknowledged, ImplicitAcknowledgement, now);
      }
      tasks := tasks[id := tasks[id].(closureNotes := notes)];
      tasks := tasks[id := tasks[id].(closedAt := Some(now))];
      ok := Transition(id, PendingVerification, actor, EvClosureRequested, Text(notes), now);
    }

    method CloseAndVerifySelf(id: TaskId, actor: UserId, notes: string, now: int) returns (ok: bool)
      requires id in tasks
      modifies this`tasks
      ensures var r := ClosedAndVerified(old(tasks[id]), actor, notes, now);
              tasks == old(tasks)[id := r.0] && r.1 == if ok then Done else InvalidStatus
    {
      if tasks[id].status == Assigned {
        var _ := Transition(id, InProgress, actor, EvAcknowledged, ImplicitAcknowledgement, now);
      }
      if tasks[id].status != InProgress && tasks[id].status != Reopened {
        return false;
      }
      var row := tasks[id].(closureNotes := notes, closedAt := Some(now));
      var audits := row.audit;
      audits := audits + [AuditEntry(EvClosureRequested, actor, now, Clip(Text(notes)))];
      audits := audits + [AuditEntry(EvVerified, actor, now, AutomaticVerification)];
      row := row.(audit := audits);
      row := row.(status := Verified, verifiedAt := Some(now));
      tasks := tasks[id := row];
      ok := true;
    }

    // ----- lifecycle transactions -----

    method Act(id: TaskId, action: Action, now: int) returns (reply: Reply)
      modifies this`tasks
      ensures (State(), reply) == Apply(cfg, old(State()), OnTask(id, action, now))
    {
      var outcome: Outcome;
      match action {
      case Acknowledge(actor) =>
        outcome := AssigneeMoves(id, Assigned, EvAcknowledged, actor, now);
      case Resume(actor) =>
        outcome := AssigneeMoves(id, Reopened, EvResumed, actor, now);
      case Close(actor, notes) =>
        outcome := CloseCase(id, actor, notes, now);
      case Verify(actor) =>
        outcome := Decide(id, actor, None, now);
      case Reopen(actor, reason) =>
        outcome := Decide(id, actor, Some(reason), now);
      case RecordNotified(details) =>
        if id in tasks {
          tasks := tasks[id := Logged(tasks[id], EvNotified, SYSTEM, now, Text(details))];
        }
        outcome := Done;
      }
      assert id in old(tasks) ==> tasks == old(tasks)[id := Tasks.Act(cfg, old(tasks[id]), action, now).0];
      reply := Acted(outcome);
    }

    method CloseCase(id: TaskId, actor: UserId, notes: string, now: int) returns (outcome: Outcome)
      modifies this`tasks
      ensures id !in old(tasks) ==> outcome == NotFound && tasks == old(tasks)
      ensures id in old(tasks) ==>
        var r := Tasks.Act(cfg, old(tasks[id]), Close(actor, notes), now);
        tasks == old(tasks)[id := r.0] && outcome == r.1
    {
      if id !in tasks {
        return NotFound;
      }
      var task := tasks[id];
      if task.assignee != actor {
        return NotAssignee;
      }
      var verifier := Verifier(cfg, task);
      var own := task.createdBy == actor && task.assignee == actor && verifier == actor;
      var autoVerify := cfg.selfCloseAutoVerify && own;
      var ok: bool;
      if autoVerify {
        ok := CloseAndVerifySelf(id, actor, notes, now);
      } else {
        ok := MarkPendingClosure(id, actor, notes, now);
      }
      outcome := if ok then Done else InvalidStatus;
    }

    /** A verifier's decision: confirm, or reopen with a reason. Neither consults the transition table. */
    method Decide(id: TaskId, actor: UserId, reason: Option<string>, now: int) returns (outcome: Outcome)
      modifies this`tasks
      ensures id !in old(tasks) ==> outcome == NotFound && tasks == old(tasks)
      ensures id in old(tasks) ==>
        var r := Tasks.Act(cfg, old(tasks[id]), if reason.Some?
            then Reopen(actor, reason.value) else Verify(actor), now);
        tasks == old(tasks)[id := r.0] && outcome == r.1
      ensures id in old(tasks) ==>
        var t := old(tasks[id]);
        outcome != NotVerifier <==>
          actor == if cfg.verifierMode == ManagerMap && t.assignee in cfg.managers && cfg.managers[t.assignee] != ""
              then cfg.managers[t.assignee] else t.createdBy
    {
      if id !in tasks {
        return NotFound;
      }
      if Verifier(cfg, tasks[id]) != actor {
        return NotVerifier;
      }
      if tasks[id].status != PendingVerification {
        return InvalidStatus;
      }
      var row := tasks[id];
      match reason {
      case None =>
        row := row.(status := Verified);
        row := row.(verifiedAt := Some(now));
        row := row.(audit := row.audit + [AuditEntry(EvVerified, actor, now, Clip(Text("")))]);
      case Some(why) =>
        row := row.(status := Reopened);
        row := row.(rejectionReason := why);
        row := row.(audit := row.audit + [AuditEntry(EvReopened, actor, now, Clip(Text(why)))]);
      }
      tasks := tasks[id := row];
      outcome := Done;
    }

    /** Recomputes every overdue flag, in whatever order the rows are returned. */
    method RefreshOverdueFlags(today: int) returns (n: nat)
      modifies this`tasks
      ensures tasks == Flagged(old(tasks), today) && n == |Misflagged(old(tasks), today)|
    {
      n := 0;
      var rows := tasks.Keys;
      ghost var was := tasks;
      RefreshBegins(was, today);
      while rows != {}
        invariant Refreshing(was, tasks, rows, today, n)
        decreases rows
      {
        var id :| id in rows;
        RefreshGoesOn(was, tasks, rows, id, today, n);
        var changed := RefreshFlag(id, today);
        if changed {
          n := n + 1;
        }
        rows := rows - {id};
      }
      RefreshEnds(was, tasks, today, n);
    }

    method RefreshFlag(id: TaskId, today: int) returns (changed: bool)
      requires id in tasks
      modifies this`tasks
      ensures tasks == old(tasks)[id := old(tasks[id]).(overdue := IsOverdue(old(tasks[id]), today))]
      ensures changed <==> old(tasks[id]).overdue != IsOverdue(old(tasks[id]), today)
    {
      var overdue := tasks[id].due < today && tasks[id].status !in {Verified, Cancelled};
      changed := tasks[id].overdue != overdue;
      if changed {
        tasks := tasks[id := tasks[id].(overdue := overdue)];
      }
    }

    // ----- draft transactions -----

    method StashDraft(id: string, requester: UserId, proposal: Proposal, now: int) returns (reply: Reply)
      modifies this`drafts
      ensures (State(), reply) == Apply(cfg, old(State()), Stash(id, requester, proposal, now))
    {
      if id in drafts {
        return Crashed;
      }
      drafts := drafts[id := Draft(requester, proposal, Active, now + DRAFT_TTL, None)];
      reply := Silent;
    }

    /** The row if it is the actor's, active and unexpired; an expired active row is withdrawn. */
    method OwnedRow(id: string, actor: UserId, now: int) returns (r: Ownership)
      modifies this`drafts
      ensures r == Owned(old(drafts), id, actor, now)
      ensures drafts == if r == Gone then Swept(old(drafts), id, now) else old(drafts)
    {
      if id in drafts && drafts[id].requester != actor {
        return Foreign;
      }
      if id !in drafts || drafts[id].state != Active || drafts[id].expiresAt <= now {
        if id in drafts && drafts[id].state == Active {
          drafts := drafts[id := drafts[id].(state := Withdrawn)];
        }
        return Gone;
      }
      r := Live;
    }

    method PeekDraft(id: string, actor: UserId, now: int) returns (reply: Reply)
      modifies this`drafts
      ensures (State(), reply) == Apply(cfg, old(State()), Peek(id, actor, now))
    {
      var row := OwnedRow(id, actor, now);
      match row
      case Foreign => reply := Denied;
      case Gone => reply := DraftGone;
      case Live => reply := DraftShown(drafts[id].proposal);
    }

    method CompletedDraftTaskId(id: string, actor: UserId) returns (reply: Reply)
      ensures (State(), reply) == Apply(cfg, State(), CompletedId(id, actor))
    {
      if id in drafts && drafts[id].requester != actor {
        return Denied;
      }
      if id !in drafts || drafts[id].state != Consumed {
        return DraftGone;
      }
      reply := match drafts[id].taskId case None => DraftGone case Some(t) => TaskCreated(t);
    }

    method NextSequence(series: Series) returns (n: nat)
      modifies this`counters
      ensures n == LastSequence(old(counters), series) + 1
      ensures counters == old(counters)[series := n]
    {
      if series !in counters {
        counters := counters[series := 0];
      }
      counters := counters[series := counters[series] + 1];
      n := counters[series];
    }

    /** Inserts the task; fails when the primary key is taken, with the counter already moved. */
    method CreateFromDraft(p: Proposal, requester: UserId, now: int, year: nat, ghost draftId: string)
      returns (ok: bool, id: TaskId)
      modifies this`tasks, this`counters, this`origins
      ensures var n := LastSequence(old(counters), Series(p.department, year)) + 1;
              id == TaskId(p.department, year, n) && counters == old(counters)[Series(p.department, year) := n]
      ensures ok == (id !in old(tasks))
      ensures ok ==> tasks == old(tasks)[id := NewTask(p.department, p.text, p.due, requester, p.assignee, now)]
      ensures ok ==> origins == old(origins)[id := draftId]
      ensures !ok ==> tasks == old(tasks) && origins == old(origins)
    {
      var n := NextSequence(Series(p.department, year));
      id := TaskId(p.department, year, n);
      ok := id !in tasks;
      if ok {
        tasks := tasks[id := NewTask(p.department, p.text, p.due, requester, p.assignee, now)];
        origins := origins[id := draftId];
      }
    }

    /** Claims the draft, creates its task and records the id: all or nothing. */
    method ClaimAndCreate(draftId: string, actor: UserId, now: int, year: nat, crashes: bool) returns (reply: Reply)
      modifies this`tasks, this`counters, this`drafts, this`origins
      ensures (State(), reply) == Apply(cfg, old(State()), Claim(draftId, actor, now, year, crashes))
    {
      var row := OwnedRow(draftId, actor, now);
      match row
      case Foreign => reply := Denied;
      case Gone => reply := DraftGone;
      case Live => reply := ClaimLive(draftId, actor, now, year, crashes);
    }

    /** The claim of a live draft; a failure after the conditional update undoes it. */
    method ClaimLive(draftId: string, actor: UserId, now: int, year: nat, crashes: bool) returns (reply: Reply)
      requires Owned(drafts, draftId, actor, now) == Live
      modifies this`tasks, this`counters, this`drafts, this`origins
      ensures (State(), reply) == ApplyClaim(old(State()), draftId, actor, now, year, crashes)
    {
      var tasks0, counters0, drafts0 := tasks, counters, drafts;
      ghost var origins0 := origins;
      var proposal := drafts[draftId].proposal;
      drafts := drafts[draftId := drafts[draftId].(state := Consumed)];
      var ok, id := CreateFromDraft(proposal, actor, now, year, draftId);
      if crashes || !ok {
        tasks, counters, drafts := tasks0, counters0, drafts0;
        origins := origins0;
        reply := Crashed;
      } else {
        drafts := drafts[draftId := drafts[draftId].(taskId := Some(id))];
        assert drafts == drafts0[draftId := drafts0[draftId].(state := Consumed, taskId := Some(id))];
        reply := TaskCreated(id);
      }
    }

    method DiscardDraft(id: string, actor: UserId, now: int) returns (reply: Reply)
      modifies this`drafts
      ensures (State(), reply) == Apply(cfg, old(State()), Discard(id, actor, now))
    {
      var row := OwnedRow(id, actor, now);
      match row
      case Foreign => reply := Denied;
      case Gone => reply := DraftGone;
      case Live =>
        drafts := drafts[id := drafts[id].(state := Withdrawn)];
        reply := DraftDiscarded;
    }

    // ----- interaction rows -----

    method Row(k: ChatKey)
      modifies this`chats
      ensures chats == old(chats)[k := ChatOf(old(State()), k)]
    {
      if k !in chats {
        chats := chats[k := NEW_CHAT];
      }
    }

    method BeginChatEvent(k: ChatKey, activity: string) returns (reply: Reply)
      modifies this`chats
      ensures (State(), reply) == Apply(cfg, old(State()), BeginEvent(k, activity))
    {
      if !cfg.coordinatorEnabled {
        return Revision(Some(0));
      }
      Row(k);
      chats := chats[k := chats[k].(revision := chats[k].revision + 1, sourceActivity := activity)];
      assert chats == old(chats)[k := chats[k]];
      reply := Revision(Some(chats[k].revision));
    }

    method SetPendingForm(k: ChatKey, form: Form, expected: Option<int>, now: int) returns (reply: Reply)
      modifies this`chats
      ensures (State(), reply) == Apply(cfg, old(State()), SetPending(k, form, expected, now))
    {
      if !cfg.coordinatorEnabled {
        return Revision(None);
      }
      Row(k);
      if expected.Some? {
        var matching := expected.value == chats[k].revision;
        if matching {
          chats := chats[k := chats[k].(form := form, expiresAt := Some(now + PENDING_TTL))];
        }
        assert chats == old(chats)[k := chats[k]];
        return Revision(if matching then expected else None);
      }
      chats := chats[k := chats[k].(form := form)];
      chats := chats[k := chats[k].(expiresAt := Some(now + PENDING_TTL))];
      assert chats == old(chats)[k := chats[k]];
      reply := Revision(Some(chats[k].revision));
    }

    method GetPendingForm(k: ChatKey, now: int) returns (reply: Reply)
      modifies this`chats
      ensures (State(), reply) == Apply(cfg, old(State()), GetPending(k, now))
      ensures reply == PendingIs(
                if !cfg.coordinatorEnabled || k !in old(chats) then None
                else match old(chats)[k].expiresAt
                     case Some(at) => if at < now then None else Some(old(chats)[k])
                     case None => Some(old(chats)[k]))
    {
      if !cfg.coordinatorEnabled || k !in chats {
        return PendingIs(None);
      }
      if chats[k].expiresAt.Some? && chats[k].expiresAt.value < now {
        ClearRow(k);
        return PendingIs(None);
      }
      reply := PendingIs(Some(chats[k]));
    }

    method ClearPendingForm(k: ChatKey) returns (reply: Reply)
      modifies this`chats
      ensures (State(), reply) == Apply(cfg, old(State()), ClearPending(k))
    {
      if cfg.coordinatorEnabled && k in chats {
        ClearRow(k);
      }
      reply := Silent;
    }

    method ClearRow(k: ChatKey)
      requires k in chats
      modifies this`chats
      ensures chats == old(chats)[k := Cleared(old(chats[k]))]
    {
      chats := chats[k := chats[k].(form := BLANK)];
      chats := chats[k := chats[k].(expiresAt := None)];
    }

    // ----- any transaction, and any sequence of them -----

    method Perform(c: Command) returns (reply: Reply)
      modifies this
      ensures (State(), reply) == Apply(cfg, old(State()), c)
    {
      match c
      case Stash(id, requester, proposal, now) => reply := StashDraft(id, requester, proposal, now);
      case Peek(id, actor, now) => reply := PeekDraft(id, actor, now);
      case CompletedId(id, actor) => reply := CompletedDraftTaskId(id, actor);
      case Claim(id, actor, now, year, crashes) => reply := ClaimAndCreate(id, actor, now, year, crashes);
      case Discard(id, actor, now) => reply := DiscardDraft(id, actor, now);
      case OnTask(id, action, now) => reply := Act(id, action, now);
      case RefreshOverdue(today) =>
        var n := RefreshOverdueFlags(today);
        reply := Refreshed(n);
      case BeginEvent(k, activity) => reply := BeginChatEvent(k, activity);
      case SetPending(k, form, expected, now) => reply := SetPendingForm(k, form, expected, now);
      case GetPending(k, now) => reply := GetPendingForm(k, now);
      case ClearPending(k) => reply := ClearPendingForm(k);
    }

    /** Other users' transactions, in any number and order. */
    method Interleave(commands: seq<Command>)
      modifies this
      ensures State() == Run(cfg, old(State()), commands)
    {
      for i := 0 to |commands|
        invariant State() == Run(cfg, old(State()), commands[..i])
      {
        assert commands[..i + 1][..i] == commands[..i];
        var _ := Perform(commands[i]);
      }
      assert commands[..|commands|] == commands;
    }
  }
}
