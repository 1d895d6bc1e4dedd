/** The durable store: tasks, sequence counters, drafts and interaction rows, one command per transaction. */
module Ledger {
  import opened Domain
  import opened Wrappers
  import opened Tasks
  import opened TaskIds

  /** Times are in microseconds. */
  const MINUTE: int := 60_000_000
  const DRAFT_TTL: int := 30 * MINUTE
  const PENDING_TTL: int := 30 * MINUTE

  datatype DraftState = Active | Consumed | Withdrawn

  /** What a draft proposes to create. */
  datatype Proposal = Proposal(department: Dept, text: TaskText, due: int, assignee: UserId)

  datatype Draft = Draft(
    requester: UserId,
    proposal: Proposal,
    state: DraftState,
    expiresAt: int,
    taskId: Option<TaskId>)

  datatype Series = Series(dept: Dept, year: nat)

  datatype ChatKey = ChatKey(actor: UserId, conversation: string)

  datatype Operation = CreateTask | ReviewDraft | CloseTask | ReopenTask

  datatype Form = Form(
    operation: Option<Operation>,
    slots: map<string, string>,
    missing: seq<string>,
    reference: string)

  datatype Chat = Chat(revision: nat, form: Form, sourceActivity: string, expiresAt: Option<int>)

  const BLANK: Form := Form(None, map[], [], "")
  const NEW_CHAT: Chat := Chat(0, BLANK, "", None)

  /** `origins` records which draft each task came from; the program itself never reads it. */
  datatype Store = Store(
    tasks: map<TaskId, Task>,
    counters: map<Series, nat>,
    drafts: map<string, Draft>,
    chats: map<ChatKey, Chat>,
    origins: map<TaskId, string>)

  const EMPTY: Store := Store(map[], map[], map[], map[], map[])

  datatype Command =
    | Stash(draftId: string, requester: UserId, proposal: Proposal, now: int)
    | Peek(draftId: string, actor: UserId, now: int)
    | CompletedId(draftId: string, actor: UserId)
    | Claim(draftId: string, actor: UserId, now: int, year: nat, crashes: bool)
    | Discard(draftId: string, actor: UserId, now: int)
    | OnTask(taskId: TaskId, action: Action, now: int)
    | RefreshOverdue(today: int)
    | BeginEvent(chat: ChatKey, activity: string)
    | SetPending(chat: ChatKey, form: Form, expected: Option<int>, now: int)
    | GetPending(chat: ChatKey, now: int)
    | ClearPending(chat: ChatKey)

  datatype Reply =
    | Silent
    | Crashed
    | Denied
    | DraftGone
    | DraftShown(proposal: Proposal)
    | TaskCreated(taskId: TaskId)
    | DraftDiscarded
    | Acted(outcome: Outcome)
    | Refreshed(changed: nat)
    | Revision(current: Option<int>)
    | PendingIs(pending: Option<Chat>)

  // ----- drafts -----

  datatype Ownership = Foreign | Gone | Live

  function Owned(drafts: map<string, Draft>, id: string, actor: UserId, now: int): Ownership {
    if id !in drafts then Gone
    else if drafts[id].requester != actor then Foreign
    else if drafts[id].state == Active && now < drafts[id].expiresAt then Live
    else Gone
  }

  /** Looking at an expired draft that is still active withdraws it. */
  function Swept(drafts: map<string, Draft>, id: string, now: int): map<string, Draft> {
    if id in drafts && drafts[id].state == Active && drafts[id].expiresAt <= now then
      drafts[id := drafts[id].(state := Withdrawn)]
    else
      drafts
  }

  function LastSequence(counters: map<Series, nat>, series: Series): nat {
    if series in counters then counters[series] else 0
  }

  /** The store after one draft has become one task, with the next number of its series. */
  function WithTask(s: Store, draftId: string, actor: UserId, now: int, year: nat): (Store, TaskId)
    requires draftId in s.drafts
  {
    var p := s.drafts[draftId].proposal;
    var series := Series(p.department, year);
    var n := LastSequence(s.counters, series) + 1;
    var id := TaskId(p.department, year, n);
    (s.(tasks := s.tasks[id := NewTask(p.department, p.text, p.due, actor, p.assignee, now)],
        counters := s.counters[series := n],
        drafts := s.drafts[draftId := s.drafts[draftId].(state := Consumed, taskId := Some(id))],
        origins := s.origins[id := draftId]),
     id)
  }

  function ApplyClaim(s: Store, draftId: string, actor: UserId, now: int, year: nat, crashes: bool): (Store, Reply) {
    match Owned(s.drafts, draftId, actor, now)
    case Foreign => (s, Denied)
    case Gone => (s.(drafts := Swept(s.drafts, draftId, now)), DraftGone)
    case Live =>
      var (created, id) := WithTask(s, draftId, actor, now, year);
      if crashes || id in s.tasks then (s, Crashed) else (created, TaskCreated(id))
  }

  /** What looking up the task of a finished draft answers. */
  function Looked(drafts: map<string, Draft>, id: string, actor: UserId): Reply {
    if id in drafts && drafts[id].requester != actor then Denied
    else if id in drafts && drafts[id].state == Consumed && drafts[id].taskId.Some?
        then TaskCreated(drafts[id].taskId.value)
    else DraftGone
  }

  function ApplyDraft(s: Store, c: Command): (Store, Reply)
    requires c.Stash? || c.Peek? || c.CompletedId? || c.Claim? || c.Discard?
  {
    match c
    case Stash(id, requester, proposal, now) =>
      if id in s.drafts then (s, Crashed)
      else (s.(drafts := s.drafts[id := Draft(requester, proposal, Active, now + DRAFT_TTL, None)]), Silent)
    case Peek(id, actor, now) =>
      (match Owned(s.drafts, id, actor, now)
       case Foreign => (s, Denied)
       case Gone => (s.(drafts := Swept(s.drafts, id, now)), DraftGone)
       case Live => (s, DraftShown(s.drafts[id].proposal)))
    case CompletedId(id, actor) =>
      (s, Looked(s.drafts, id, actor))
    case Claim(id, actor, now, year, crashes) =>
      ApplyClaim(s, id, actor, now, year, crashes)
    case Discard(id, actor, now) =>
      (match Owned(s.drafts, id, actor, now)
       case Foreign => (s, Denied)
       case Gone => (s.(drafts := Swept(s.drafts, id, now)), DraftGone)
       case Live => (s.(drafts := s.drafts[id := s.drafts[id].(state := Withdrawn)]), DraftDiscarded))
  }

  // ----- tasks -----

  predicate IsOverdue(t: Task, today: int) {
    t.due < today && !Terminal(t.status)
  }

  function Flagged(tasks: map<TaskId, Task>, today: int): map<TaskId, Task> {
    map id | id in tasks :: tasks[id].(overdue := IsOverdue(tasks[id], today))
  }

  function Misflagged(tasks: map<TaskId, Task>, today: int): set<TaskId> {
    set id | id in tasks && tasks[id].overdue != IsOverdue(tasks[id], today)
  }

  function ApplyTask(cfg: Settings, s: Store, c: Command): (Store, Reply)
    requires c.OnTask? || c.RefreshOverdue?
  {
    match c
    case OnTask(id, action, now) =>
      if id !in s.tasks then (s, Acted(if action.RecordNotified? then Done else NotFound))
      else
        var r := Act(cfg, s.tasks[id], action, now);
        (s.(tasks := s.tasks[id := r.0]), Acted(r.1))
    case RefreshOverdue(today) =>
      (s.(tasks := Flagged(s.tasks, today)), Refreshed(|Misflagged(s.tasks, today)|))
  }

  // ----- interaction rows -----

  function ChatOf(s: Store, k: ChatKey): Chat {
    if k in s.chats then s.chats[k] else NEW_CHAT
  }

  function Cleared(c: Chat): Chat {
    c.(form := BLANK, expiresAt := None)
  }

  function ApplyChat(cfg: Settings, s: Store, c: Command): (Store, Reply)
    requires c.BeginEvent? || c.SetPending? || c.GetPending? || c.ClearPending?
  {
    match c
    case BeginEvent(k, activity) =>
      if !cfg.coordinatorEnabled then (s, Revision(Some(0)))
      else
        var row := ChatOf(s, k);
        (s.(chats := s.chats[k := row.(revision := row.revision + 1, sourceActivity := activity)]),
         Revision(Some(row.revision + 1)))
    case SetPending(k, form, expected, now) =>
      if !cfg.coordinatorEnabled then (s, Revision(None))
      else
        var row := ChatOf(s, k);
        if expected.Some? && expected.value != row.revision then
          (s.(chats := s.chats[k := row]), Revision(None))
        else
          (s.(chats := s.chats[k := row.(form := form, expiresAt := Some(now + PENDING_TTL))]),
           Revision(Some(row.revision)))
    case GetPending(k, now) =>
      if !cfg.coordinatorEnabled || k !in s.chats then (s, PendingIs(None))
      else if s.chats[k].expiresAt.Some? && s.chats[k].expiresAt.value < now then
        (s.(chats := s.chats[k := Cleared(s.chats[k])]), PendingIs(None))
      else (s, PendingIs(Some(s.chats[k])))
    case ClearPending(k) =>
      if !cfg.coordinatorEnabled || k !in s.chats then (s, Silent)
      else (s.(chats := s.chats[k := Cleared(s.chats[k])]), Silent)
  }

  // ----- runs -----

  function Apply(cfg: Settings, s: Store, c: Command): (Store, Reply) {
    if c.OnTask? || c.RefreshOverdue? then ApplyTask(cfg, s, c)
    else if c.BeginEvent? || c.SetPending? || c.GetPending? || c.ClearPending? then ApplyChat(cfg, s, c)
    else ApplyDraft(s, c)
  }

  function Run(cfg: Settings, s: Store, commands: seq<Command>): Store {
    if commands == [] then s
    else Apply(cfg, Run(cfg, s, commands[..|commands| - 1]), commands[|commands| - 1]).0
  }

  /** The answer to command number `i` of a run. */
  function ReplyAt(cfg: Settings, s: Store, commands: seq<Command>, i: nat): Reply
    requires i < |commands|
  {
    Apply(cfg, Run(cfg, s, commands[..i]), commands[i]).1
  }

  lemma {:induction false} RunAppend(cfg: Settings, s: Store, a: seq<Command>, b: seq<Command>)
    ensures Run(cfg, s, a + b) == Run(cfg, Run(cfg, s, a), b)
    decreases |b|
  {
    if b == [] {
      assert a + b == a;
    } else {
      RunAppend(cfg, s, a, b[..|b| - 1]);
      assert (a + b)[..|a + b| - 1] == a + b[..|b| - 1];
    }
  }
}
