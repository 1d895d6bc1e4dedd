/** One task row: what each lifecycle operation does to it, and which audit histories can arise. */
module Tasks {
  import opened Domain
  import opened Wrappers

  type UserId = string

  /** The details of an audit entry: free text, or one of the two fixed messages. */
  datatype Note = Text(text: string) | ImplicitAcknowledgement | AutomaticVerification

  datatype AuditEntry = AuditEntry(event: AuditEvent, actor: UserId, at: int, details: Note)

  datatype TaskText = TaskText(taskType: string, description: string, priority: string)

  datatype Task = Task(
    department: Dept,
    text: TaskText,
    createdBy: UserId,
    assignee: UserId,
    due: int,
    status: Status,
    overdue: bool,
    closureNotes: string,
    rejectionReason: string,
    closedAt: Option<int>,
    verifiedAt: Option<int>,
    audit: seq<AuditEntry>)

  datatype VerifierMode = CreatedBy | ManagerMap

  datatype Settings = Settings(
    verifierMode: VerifierMode,
    managers: map<UserId, UserId>,
    selfCloseAutoVerify: bool,
    coordinatorEnabled: bool)

  const SYSTEM: UserId := "SYSTEM"

  /** Who must verify a task: its creator, or its assignee's mapped manager when there is one. */
  function Verifier(cfg: Settings, t: Task): UserId {
    if cfg.verifierMode == ManagerMap && t.assignee in cfg.managers && cfg.managers[t.assignee] != "" then
      cfg.managers[t.assignee]
    else
      t.createdBy
  }

  /** Closing such a task verifies it at once: creator, assignee and verifier are one user. */
  predicate ClosesItself(cfg: Settings, t: Task) {
    cfg.selfCloseAutoVerify && t.createdBy == t.assignee && Verifier(cfg, t) == t.assignee
  }

  function Clip(n: Note): Note {
    if n.Text? && |n.text| > 1000 then Text(n.text[..1000]) else n
  }

  function Logged(t: Task, event: AuditEvent, actor: UserId, at: int, details: Note): Task {
    t.(audit := t.audit + [AuditEntry(event, actor, at, Clip(details))])
  }

  function NewTask(department: Dept, text: TaskText, due: int, requester: UserId, assignee: UserId, now: int): Task {
    Task(department, text, requester, assignee, due, Assigned, false, "", "", None, None,
         [AuditEntry(EvCreated, requester, now, Text("")), AuditEntry(EvAssigned, requester, now, Text(assignee))])
  }

  // ----- lifecycle operations -----

  datatype Action =
    | Acknowledge(actor: UserId)
    | Resume(actor: UserId)
    | Close(actor: UserId, notes: string)
    | Verify(actor: UserId)
    | Reopen(actor: UserId, reason: string)
    | RecordNotified(details: string)

  datatype Outcome = Done | NotFound | NotAssignee | NotVerifier | InvalidStatus

  function Moved(t: Task, target: Status, event: AuditEvent, actor: UserId, now: int, details: Note): Task {
    Logged(t.(status := target), event, actor, now, details)
  }

  /** An assigned task being closed is acknowledged first. */
  function ImplicitlyAcknowledged(t: Task, actor: UserId, now: int): Task {
    if t.status == Assigned then Moved(t, InProgress, EvAcknowledged, actor, now, ImplicitAcknowledgement) else t
  }

  /** Closure request. The notes and closing time are written before the status is checked. */
  function ClosureRequested(t: Task, actor: UserId, notes: string, now: int): (Task, Outcome) {
    var noted := ImplicitlyAcknowledged(t, actor, now).(closureNotes := notes, closedAt := Some(now));
    if CanTransition(noted.status, PendingVerification) then
      (Moved(noted, PendingVerification, EvClosureRequested, actor, now, Text(notes)), Done)
    else
      (noted, InvalidStatus)
  }

  function ClosedAndVerified(t: Task, actor: UserId, notes: string, now: int): (Task, Outcome) {
    var a := ImplicitlyAcknowledged(t, actor, now);
    if a.status != InProgress && a.status != Reopened then
      (a, InvalidStatus)
    else
      var noted := a.(closureNotes := notes, closedAt := Some(now));
      var requested := Logged(noted, EvClosureRequested, actor, now, Text(notes));
      var logged := Logged(requested, EvVerified, actor, now, AutomaticVerification);
      (logged.(status := Verified, verifiedAt := Some(now)), Done)
  }

  function Confirmed(t: Task, actor: UserId, now: int): (Task, Outcome) {
    if t.status != PendingVerification then (t, InvalidStatus)
    else (Moved(t, Verified, EvVerified, actor, now, Text("")).(verifiedAt := Some(now)), Done)
  }

  function Rejected(t: Task, actor: UserId, reason: string, now: int): (Task, Outcome) {
    if t.status != PendingVerification then (t, InvalidStatus)
    else (Moved(t, Reopened, EvReopened, actor, now, Text(reason)).(rejectionReason := reason), Done)
  }

  function Started(t: Task, from: Status, event: AuditEvent, actor: UserId, now: int): (Task, Outcome) {
    if t.assignee != actor then (t, NotAssignee)
    else if t.status != from then (t, InvalidStatus)
    else (Moved(t, InProgress, event, actor, now, Text("")), Done)
  }

  /** The committed row and the answer, for a task that exists. */
  function Act(cfg: Settings, t: Task, action: Action, now: int): (Task, Outcome) {
    match action
    case Acknowledge(actor) => Started(t, Assigned, EvAcknowledged, actor, now)
    case Resume(actor) => Started(t, Reopened, EvResumed, actor, now)
    case Close(actor, notes) =>
      if t.assignee != actor then (t, NotAssignee)
      else if ClosesItself(cfg, t) then ClosedAndVerified(t, actor, notes, now)
      else ClosureRequested(t, actor, notes, now)
    case Verify(actor) =>
      if Verifier(cfg, t) != actor then (t, NotVerifier) else Confirmed(t, actor, now)
    case Reopen(actor, reason) =>
      if Verifier(cfg, t) != actor then (t, NotVerifier) else Rejected(t, actor, reason, now)
    case RecordNotified(details) =>
      (Logged(t, EvNotified, SYSTEM, now, Text(details)), Done)
  }

  function ActAll(cfg: Settings, t: Task, actions: seq<Action>, now: int): Task {
    if actions == [] then t
    else Act(cfg, ActAll(cfg, t, actions[..|actions| - 1], now), actions[|actions| - 1], now).0
  }

  // ----- replaying an audit trail -----

  /** The status an event announces; a notification announces none. */
  function Announces(e: AuditEvent): Option<Status> {
    match e
    case EvCreated => Some(Created)
    case EvAssigned => Some(Assigned)
    case EvAcknowledged => Some(InProgress)
    case EvResumed => Some(InProgress)
    case EvClosureRequested => Some(PendingVerification)
    case EvVerified => Some(Verified)
    case EvReopened => Some(Reopened)
    case EvCancelled => Some(Cancelled)
    case EvUpdated => None
    case EvEscalated => None
    case EvNotified => None
  }

  /** Follows the announced statuses from Created along edges of the transition table. */
  function Replay(audit: seq<AuditEntry>): Option<Status> {
    if audit == [] then Some(Created)
    else
      match Replay(audit[..|audit| - 1])
      case None => None
      case Some(s) =>
        match Announces(audit[|audit| - 1].event)
        case None => Some(s)
        case Some(next) => if CanTransition(s, next) then Some(next) else None
  }

  /** Which event may follow in which status, and where it leads. */
  function Next(s: Status, e: AuditEvent): Option<Status> {
    match (s, e)
    case (Created, EvAssigned) => Some(Assigned)
    case (Assigned, EvAcknowledged) => Some(InProgress)
    case (InProgress, EvClosureRequested) => Some(PendingVerification)
    case (PendingVerification, EvClosureRequested) => Some(PendingVerification)
    case (Reopened, EvClosureRequested) => Some(PendingVerification)
    case (PendingVerification, EvVerified) => Some(Verified)
    case (PendingVerification, EvReopened) => Some(Reopened)
    case (Reopened, EvResumed) => Some(InProgress)
    case (_, EvNotified) => if s == Created then None else Some(s)
    case (_, _) => None
  }

  /** The status reached by a legal history, which opens with its creation. */
  function History(audit: seq<AuditEntry>): Option<Status> {
    if audit == [] then None
    else if |audit| == 1 then
      if audit[0].event == EvCreated then Some(Created) else None
    else
      match History(audit[..|audit| - 1])
      case None => None
      case Some(s) => Next(s, audit[|audit| - 1].event)
  }

  /** The users entitled to act on a task. */
  datatype Roles = Roles(creator: UserId, assignee: UserId, verifier: UserId)

  function RolesOf(cfg: Settings, t: Task): Roles {
    Roles(t.createdBy, t.assignee, Verifier(cfg, t))
  }

  /** Who may have written an entry. */
  function Author(roles: Roles, e: AuditEvent): Option<UserId> {
    match e
    case EvCreated => Some(roles.creator)
    case EvAssigned => Some(roles.creator)
    case EvAcknowledged => Some(roles.assignee)
    case EvResumed => Some(roles.assignee)
    case EvClosureRequested => Some(roles.assignee)
    case EvVerified => Some(roles.verifier)
    case EvReopened => Some(roles.verifier)
    case EvNotified => Some(SYSTEM)
    case EvUpdated => None
    case EvCancelled => None
    case EvEscalated => None
  }

  ghost predicate AllAuthored(roles: Roles, audit: seq<AuditEntry>) {
    forall e | e in audit :: Author(roles, e.event) == Some(e.actor)
  }

  /** What every stored task row satisfies. */
  ghost predicate TaskOk(cfg: Settings, t: Task) {
    && History(t.audit) == Some(t.status)
    && t.status != Created
    && AllAuthored(RolesOf(cfg, t), t.audit)
    && (t.verifiedAt.Some? <==> t.status == Verified)
  }

  /** The fields no lifecycle operation touches. */
  predicate SameTask(a: Task, b: Task) {
    a.department == b.department && a.text == b.text && a.createdBy == b.createdBy
    && a.assignee == b.assignee && a.due == b.due
  }

  lemma HistoryGrows(audit: seq<AuditEntry>, e: AuditEntry)
    ensures History(audit).Some? ==> History(audit + [e]) == Next(History(audit).value, e.event)
  {
    assert (audit + [e])[..|audit|] == audit;
  }

  lemma {:induction false} HistoryStatuses(audit: seq<AuditEntry>)
    requires History(audit).Some?
    ensures History(audit).value !in {PendingClosure, Cancelled}
  {
    if |audit| > 1 {
      HistoryStatuses(audit[..|audit| - 1]);
    }
  }

  lemma NewTaskOk(cfg: Settings, department: Dept, text: TaskText, due: int, requester: UserId, assignee: UserId,
                  now: int)
    ensures var t := NewTask(department, text, due, requester, assignee, now); TaskOk(cfg, t) && JustAssigned(t)
  {
    var t := NewTask(department, text, due, requester, assignee, now);
    assert t.audit[..1] == [t.audit[0]];
  }

  /** One legal event by its entitled author keeps the row legal. */
  lemma StepOk(cfg: Settings, t: Task, r: Task, e: AuditEntry)
    requires TaskOk(cfg, t) && SameTask(t, r) && r.audit == t.audit + [e]
    requires Next(t.status, e.event) == Some(r.status)
    requires Author(RolesOf(cfg, t), e.event) == Some(e.actor)
    requires r.verifiedAt.Some? <==> r.status == Verified
    ensures TaskOk(cfg, r)
  {
    HistoryGrows(t.audit, e);
    assert RolesOf(cfg, r) == RolesOf(cfg, t);
  }

  lemma AcknowledgedOk(cfg: Settings, t: Task, actor: UserId, now: int)
    requires TaskOk(cfg, t) && t.assignee == actor
    ensures var a := ImplicitlyAcknowledged(t, actor, now);
            TaskOk(cfg, a) && SameTask(t, a) && a.status != Assigned
  {
    if t.status == Assigned {
      StepOk(cfg, t, ImplicitlyAcknowledged(t, actor, now),
             AuditEntry(EvAcknowledged, actor, now, ImplicitAcknowledgement));
    }
  }

  lemma ClosureRequestedOk(cfg: Settings, t: Task, actor: UserId, notes: string, now: int)
    requires TaskOk(cfg, t) && t.assignee == actor
    ensures var r := ClosureRequested(t, actor, notes, now).0; TaskOk(cfg, r) && SameTask(t, r)
  {
    AcknowledgedOk(cfg, t, actor, now);
    var a := ImplicitlyAcknowledged(t, actor, now);
    HistoryStatuses(a.audit);
    if a.status != Verified {
      StepOk(cfg, a, ClosureRequested(t, actor, notes, now).0,
             AuditEntry(EvClosureRequested, actor, now, Clip(Text(notes))));
    }
  }

  lemma ClosedAndVerifiedOk(cfg: Settings, t: Task, actor: UserId, notes: string, now: int)
    requires TaskOk(cfg, t) && t.assignee == actor && Verifier(cfg, t) == actor
    ensures var r := ClosedAndVerified(t, actor, notes, now).0; TaskOk(cfg, r) && SameTask(t, r)
  {
    AcknowledgedOk(cfg, t, actor, now);
    var a := ImplicitlyAcknowledged(t, actor, now);
    if a.status == InProgress || a.status == Reopened {
      var requested := Moved(a, PendingVerification, EvClosureRequested, actor, now, Text(notes));
      StepOk(cfg, a, requested, AuditEntry(EvClosureRequested, actor, now, Clip(Text(notes))));
      var r := ClosedAndVerified(t, actor, notes, now).0;
      StepOk(cfg, requested, r, AuditEntry(EvVerified, actor, now, AutomaticVerification));
    }
  }

  lemma CloseOk(cfg: Settings, t: Task, actor: UserId, notes: string, now: int)
    requires TaskOk(cfg, t)
    ensures var r := Act(cfg, t, Close(actor, notes), now).0; TaskOk(cfg, r) && SameTask(t, r)
  {
    if t.assignee == actor {
      if ClosesItself(cfg, t) {
        ClosedAndVerifiedOk(cfg, t, actor, notes, now);
      } else {
        ClosureRequestedOk(cfg, t, actor, notes, now);
      }
    }
  }

  lemma StartedOk(cfg: Settings, t: Task, from: Status, event: AuditEvent, actor: UserId, now: int)
    requires TaskOk(cfg, t) && Next(from, event) == Some(InProgress)
    requires event == EvAcknowledged || event == EvResumed
    ensures var r := Started(t, from, event, actor, now).0; TaskOk(cfg, r) && SameTask(t, r)
  {
    if t.assignee == actor && t.status == from {
      StepOk(cfg, t, Started(t, from, event, actor, now).0, AuditEntry(event, actor, now, Clip(Text(""))));
    }
  }

  lemma DecidedOk(cfg: Settings, t: Task, actor: UserId, reason: string, now: int)
    requires TaskOk(cfg, t) && Verifier(cfg, t) == actor
    ensures var r := Confirmed(t, actor, now).0; TaskOk(cfg, r) && SameTask(t, r)
    ensures var r := Rejected(t, actor, reason, now).0; TaskOk(cfg, r) && SameTask(t, r)
  {
    if t.status == PendingVerification {
      StepOk(cfg, t, Confirmed(t, actor, now).0, AuditEntry(EvVerified, actor, now, Clip(Text(""))));
      StepOk(cfg, t, Rejected(t, actor, reason, now).0, AuditEntry(EvReopened, actor, now, Clip(Text(reason))));
    }
  }

  lemma CloseKeepsIdentity(cfg: Settings, t: Task, actor: UserId, notes: string, now: int)
    ensures SameTask(t, ClosureRequested(t, actor, notes, now).0)
    ensures SameTask(t, ClosedAndVerified(t, actor, notes, now).0)
  {
  }

  lemma StartKeepsIdentity(t: Task, from: Status, event: AuditEvent, actor: UserId, now: int)
    ensures SameTask(t, Started(t, from, event, actor, now).0)
  {
  }

  lemma DecisionKeepsIdentity(t: Task, actor: UserId, reason: string, now: int)
    ensures SameTask(t, Confirmed(t, actor, now).0) && SameTask(t, Rejected(t, actor, reason, now).0)
  {
  }

  /** No lifecycle operation touches the fields that identify a task. */
  lemma ActKeepsIdentity(cfg: Settings, t: Task, action: Action, now: int)
    ensures SameTask(t, Act(cfg, t, action, now).0)
  {
    match action
    case Acknowledge(actor) => StartKeepsIdentity(t, Assigned, EvAcknowledged, actor, now);
    case Resume(actor) => StartKeepsIdentity(t, Reopened, EvResumed, actor, now);
    case Close(actor, notes) => CloseKeepsIdentity(cfg, t, actor, notes, now);
    case Verify(actor) => DecisionKeepsIdentity(t, actor, "", now);
    case Reopen(actor, reason) => DecisionKeepsIdentity(t, actor, reason, now);
    case RecordNotified(_) =>
  }

  /** Every lifecycle operation, accepted or refused, keeps the row legal and its identity fields. */
  lemma ActKeepsTaskOk(cfg: Settings, t: Task, action: Action, now: int)
    requires TaskOk(cfg, t)
    ensures var r := Act(cfg, t, action, now).0; TaskOk(cfg, r) && SameTask(t, r)
  {
    match action
    case Acknowledge(actor) => StartedOk(cfg, t, Assigned, EvAcknowledged, actor, now);
    case Resume(actor) => StartedOk(cfg, t, Reopened, EvResumed, actor, now);
    case Close(actor, notes) => CloseOk(cfg, t, actor, notes, now);
    case Verify(actor) => if Verifier(cfg, t) == actor { DecidedOk(cfg, t, actor, "", now); }
    case Reopen(actor, reason) => if Verifier(cfg, t) == actor { DecidedOk(cfg, t, actor, reason, now); }
    case RecordNotified(details) =>
      StepOk(cfg, t, Act(cfg, t, action, now).0, AuditEntry(EvNotified, SYSTEM, now, Clip(Text(details))));
  }

  // ----- what legal histories look like -----

  /** Replaying a legal history uses only edges of the transition table and ends in its status. */
  lemma {:induction false} HistoryReplays(audit: seq<AuditEntry>)
    requires History(audit).Some?
    ensures Replay(audit) == History(audit)
  {
    if |audit| == 1 {
      assert Replay(audit[..0]) == Some(Created);
    } else {
      HistoryReplays(audit[..|audit| - 1]);
    }
  }

  function Count(audit: seq<AuditEntry>, e: AuditEvent): nat {
    if audit == [] then 0
    else Count(audit[..|audit| - 1], e) + if audit[|audit| - 1].event == e then 1 else 0
  }

  /** How often each event occurs in a history that has reached a given status. */
  lemma {:induction false} HistoryCounts(audit: seq<AuditEntry>)
    requires History(audit).Some?
    ensures var s := History(audit).value;
            && Count(audit, EvAcknowledged) == (if s == Created || s == Assigned then 0 else 1)
            && Count(audit, EvVerified) == (if s == Verified then 1 else 0)
            && Count(audit, EvResumed) + (if s == Reopened then 1 else 0) <= Count(audit, EvReopened)
            && Count(audit, EvReopened) + (if s == PendingVerification || s == Verified then 1 else 0)
               <= Count(audit, EvClosureRequested)
  {
    var front, last := audit[..|audit| - 1], audit[|audit| - 1].event;
    if |audit| == 1 {
      assert forall e :: Count(front, e) == 0;
    } else {
      HistoryCounts(front);
      CountsFollow(History(front).value, last, History(audit).value, Count(front, EvAcknowledged),
                   Count(front, EvVerified), Count(front, EvResumed), Count(front, EvReopened),
                   Count(front, EvClosureRequested));
    }
  }

  predicate CountsFit(s: Status, acknowledged: int, verified: int, resumed: int, reopened: int, requested: int) {
    && acknowledged == (if s == Created || s == Assigned then 0 else 1)
    && verified == (if s == Verified then 1 else 0)
    && resumed + (if s == Reopened then 1 else 0) <= reopened
    && reopened + (if s == PendingVerification || s == Verified then 1 else 0) <= requested
  }

  lemma CountsFollow(s: Status, e: AuditEvent, next: Status, acknowledged: int, verified: int, resumed: int,
                     reopened: int, requested: int)
    requires Next(s, e) == Some(next) && CountsFit(s, acknowledged, verified, resumed, reopened, requested)
    ensures CountsFit(next, acknowledged + if e == EvAcknowledged then 1 else 0,
                      verified + if e == EvVerified then 1 else 0, resumed + if e == EvResumed then 1 else 0,
                      reopened + if e == EvReopened then 1 else 0,
                      requested + if e == EvClosureRequested then 1 else 0)
  {
  }

  /** Every non-empty beginning of a legal history is legal. */
  lemma {:induction false} HistoryPrefix(audit: seq<AuditEntry>, k: nat)
    requires History(audit).Some? && 1 <= k <= |audit|
    ensures History(audit[..k]).Some?
  {
    if k < |audit| {
      HistoryPrefix(audit[..|audit| - 1], k);
      assert audit[..|audit| - 1][..k] == audit[..k];
    } else {
      assert audit[..k] == audit;
    }
  }

  /** Once a history contains its verification, it has ended there except for notifications. */
  lemma {:induction false} NothingFollowsVerification(audit: seq<AuditEntry>, i: nat)
    requires History(audit).Some? && i < |audit| && audit[i].event == EvVerified
    ensures History(audit) == Some(Verified)
    ensures forall j | i < j < |audit| :: audit[j].event == EvNotified
  {
    var front := audit[..|audit| - 1];
    if i < |audit| - 1 {
      assert front[i] == audit[i];
      NothingFollowsVerification(front, i);
    }
  }

  /** What every beginning of a legal history looks like. */
  lemma HistoryShape(audit: seq<AuditEntry>, k: nat)
    requires History(audit).Some? && 1 <= k <= |audit|
    ensures var p := audit[..k];
            && Count(p, EvAcknowledged) <= 1 && Count(p, EvVerified) <= 1
            && Count(p, EvReopened) <= Count(p, EvClosureRequested)
            && Count(p, EvResumed) <= Count(p, EvReopened)
            && (audit[k - 1].event == EvVerified ==> forall j | k <= j < |audit| :: audit[j].event == EvNotified)
  {
    HistoryPrefix(audit, k);
    HistoryCounts(audit[..k]);
    if audit[k - 1].event == EvVerified {
      NothingFollowsVerification(audit, k - 1);
    }
  }

  /** The user who must have written an entry, by its event. */
  lemma EntryAuthor(roles: Roles, audit: seq<AuditEntry>, k: nat)
    requires AllAuthored(roles, audit) && k < |audit|
    ensures match audit[k].event
            case EvCreated => audit[k].actor == roles.creator
            case EvAssigned => audit[k].actor == roles.creator
            case EvNotified => audit[k].actor == SYSTEM
            case EvVerified => audit[k].actor == roles.verifier
            case EvReopened => audit[k].actor == roles.verifier
            case _ => audit[k].actor == roles.assignee
  {
    assert audit[k] in audit;
  }

  // ----- every legal history arises -----

  /** The operation that appends a given event, by the user entitled to it. */
  function ActionFor(cfg: Settings, t: Task, e: AuditEvent): Action {
    match e
    case EvAcknowledged => Acknowledge(t.assignee)
    case EvResumed => Resume(t.assignee)
    case EvClosureRequested => Close(t.assignee, "")
    case EvVerified => Verify(Verifier(cfg, t))
    case EvReopened => Reopen(Verifier(cfg, t), "")
    case _ => RecordNotified("")
  }

  function Events(audit: seq<AuditEntry>): (r: seq<AuditEvent>)
    ensures |r| == |audit|
  {
    seq(|audit|, i requires 0 <= i < |audit| => audit[i].event)
  }

  lemma EventIsReachable(cfg: Settings, t: Task, e: AuditEvent, now: int)
    requires TaskOk(cfg, t) && !ClosesItself(cfg, t) && Next(t.status, e).Some?
    ensures var r := Act(cfg, t, ActionFor(cfg, t, e), now);
            r.1 == Done && Events(r.0.audit) == Events(t.audit) + [e] && Some(r.0.status) == Next(t.status, e)
  {
  }

  lemma ReachesOneMore(cfg: Settings, origin: Task, before: seq<Action>, e: AuditEvent, now: int)
    requires !ClosesItself(cfg, origin)
    ensures var t := ActAll(cfg, origin, before, now);
            var action := ActionFor(cfg, t, e);
            var r := ActAll(cfg, origin, before + [action], now);
            TaskOk(cfg, t) && SameTask(origin, t) && Next(t.status, e).Some?
            ==> && TaskOk(cfg, r) && SameTask(origin, r)
                && Events(r.audit) == Events(t.audit) + [e] && Some(r.status) == Next(t.status, e)
  {
    var t := ActAll(cfg, origin, before, now);
    var action := ActionFor(cfg, t, e);
    assert (before + [action])[..|before|] == before;
    if TaskOk(cfg, t) && SameTask(origin, t) && Next(t.status, e).Some? {
      EventIsReachable(cfg, t, e, now);
      ActKeepsTaskOk(cfg, t, action, now);
    }
  }

  predicate JustAssigned(t: Task) {
    t.status == Assigned && Events(t.audit) == [EvCreated, EvAssigned]
  }

  lemma ShortestHistory(audit: seq<AuditEntry>)
    requires |audit| == 2 && History(audit).Some?
    ensures Events(audit) == [EvCreated, EvAssigned] && History(audit) == Some(Assigned)
  {
    assert History(audit[..1]) == Some(Created);
  }

  lemma LastEvent(audit: seq<AuditEntry>)
    requires |audit| >= 2 && History(audit).Some?
    ensures var front, e := audit[..|audit| - 1], audit[|audit| - 1].event;
            && Events(audit) == Events(front) + [e]
            && History(front).Some? && History(audit) == Next(History(front).value, e)
  {
  }

  /**
   * For a task that does not close itself, the histories that arise are exactly the legal ones:
   * any legal history is produced by some sequence of operations on the fresh task.
   */
  lemma {:induction false} LegalHistoriesArise(cfg: Settings, t: Task, audit: seq<AuditEntry>, now: int)
    returns (actions: seq<Action>)
    requires TaskOk(cfg, t) && JustAssigned(t) && !ClosesItself(cfg, t)
    requires History(audit).Some? && |audit| >= 2
    ensures var r := ActAll(cfg, t, actions, now);
            && TaskOk(cfg, r) && SameTask(t, r)
            && Events(r.audit) == Events(audit) && Some(r.status) == History(audit)
  {
    LastEvent(audit);
    if |audit| == 2 {
      actions := [];
      ShortestHistory(audit);
    } else {
      var front, e := audit[..|audit| - 1], audit[|audit| - 1].event;
      var earlier := LegalHistoriesArise(cfg, t, front, now);
      actions := earlier + [ActionFor(cfg, ActAll(cfg, t, earlier, now), e)];
      ReachesOneMore(cfg, t, earlier, e, now);
    }
  }

  // ----- histories of tasks that close themselves -----

  /**
   * The status after the events of a task that closes itself: it is acknowledged at most once,
   * its closure is verified in the same breath, and notifications may come anywhere else.
   */
  function SelfHistory(events: seq<AuditEvent>): Option<Status> {
    var n := |events|;
    if n < 2 then None
    else if n == 2 then if events == [EvCreated, EvAssigned] then Some(Assigned) else None
    else
      match events[n - 1]
      case EvNotified => SelfHistory(events[..n - 1])
      case EvAcknowledged => if SelfHistory(events[..n - 1]) == Some(Assigned) then Some(InProgress) else None
      case EvVerified =>
        if events[n - 2] == EvClosureRequested && SelfHistory(events[..n - 2]) == Some(InProgress)
            then Some(Verified) else None
      case _ => None
  }

  lemma SelfOneMore(events: seq<AuditEvent>, e: AuditEvent)
    requires |events| >= 2
    ensures e == EvNotified ==> SelfHistory(events + [e]) == SelfHistory(events)
    ensures e == EvAcknowledged && SelfHistory(events) == Some(Assigned) ==>
              SelfHistory(events + [e]) == Some(InProgress)
  {
    assert (events + [e])[..|events|] == events;
  }

  lemma SelfClosed(events: seq<AuditEvent>)
    requires |events| >= 2
    ensures SelfHistory(events) == Some(InProgress) ==>
              SelfHistory(events + [EvClosureRequested, EvVerified]) == Some(Verified)
  {
    assert (events + [EvClosureRequested, EvVerified])[..|events|] == events;
  }

  /** What a self-closing task has, by its events and its status. */
  predicate SelfOk(cfg: Settings, t: Task) {
    ClosesItself(cfg, t) && SelfHistory(Events(t.audit)) == Some(t.status)
  }

  /** Which events an operation appends to a self-closing task, and the status it leaves. */
  function SelfStep(t: Task, action: Action): (seq<AuditEvent>, Status) {
    match action
    case Acknowledge(actor) =>
      if actor == t.assignee && t.status == Assigned then ([EvAcknowledged], InProgress) else ([], t.status)
    case Close(actor, _) =>
      if actor != t.assignee then ([], t.status)
      else if t.status == Assigned then ([EvAcknowledged, EvClosureRequested, EvVerified], Verified)
      else if t.status == InProgress then ([EvClosureRequested, EvVerified], Verified)
      else ([], t.status)
    case RecordNotified(_) => ([EvNotified], t.status)
    case _ => ([], t.status)
  }

  lemma SelfClose(cfg: Settings, t: Task, actor: UserId, notes: string, now: int)
    requires ClosesItself(cfg, t) && t.status in {Assigned, InProgress, Verified}
    ensures var r, step := Act(cfg, t, Close(actor, notes), now).0, SelfStep(t, Close(actor, notes));
            ClosesItself(cfg, r) && Events(r.audit) == Events(t.audit) + step.0 && r.status == step.1
  {
    ActKeepsIdentity(cfg, t, Close(actor, notes), now);
  }

  lemma SelfAct(cfg: Settings, t: Task, action: Action, now: int)
    requires ClosesItself(cfg, t) && t.status in {Assigned, InProgress, Verified}
    ensures var r, step := Act(cfg, t, action, now).0, SelfStep(t, action);
            ClosesItself(cfg, r) && Events(r.audit) == Events(t.audit) + step.0 && r.status == step.1
  {
    if action.Close? {
      SelfClose(cfg, t, action.actor, action.notes, now);
    } else {
      ActKeepsIdentity(cfg, t, action, now);
    }
  }

  lemma {:induction false} SelfStatuses(events: seq<AuditEvent>)
    ensures SelfHistory(events).Some? ==> |events| >= 2 && SelfHistory(events).value in {Assigned, InProgress, Verified}
    decreases |events|
  {
    if |events| > 2 && events[|events| - 1] == EvNotified { SelfStatuses(events[..|events| - 1]); }
  }

  lemma ActKeepsSelfOk(cfg: Settings, t: Task, action: Action, now: int)
    requires SelfOk(cfg, t)
    ensures SelfOk(cfg, Act(cfg, t, action, now).0)
  {
    var events := Events(t.audit);
    SelfStatuses(events);
    SelfAct(cfg, t, action, now);
    SelfOneMore(events, EvNotified);
    SelfOneMore(events, EvAcknowledged);
    SelfClosed(events);
    SelfClosed(events + [EvAcknowledged]);
    assert events + [EvAcknowledged, EvClosureRequested, EvVerified]
        == events + [EvAcknowledged] + [EvClosureRequested, EvVerified];
    assert events + [] == events;
  }

  /** Whatever is done to a fresh task that closes itself, its history is of this kind. */
  lemma {:induction false} SelfClosingHistoriesOnly(cfg: Settings, t: Task, actions: seq<Action>, now: int)
    requires JustAssigned(t) && ClosesItself(cfg, t)
    ensures SelfOk(cfg, ActAll(cfg, t, actions, now))
  {
    if actions != [] {
      SelfClosingHistoriesOnly(cfg, t, actions[..|actions| - 1], now);
      ActKeepsSelfOk(cfg, ActAll(cfg, t, actions[..|actions| - 1], now), actions[|actions| - 1], now);
    }
  }

  lemma ActAllOneMore(cfg: Settings, t: Task, before: seq<Action>, action: Action, now: int)
    ensures ActAll(cfg, t, before + [action], now) == Act(cfg, ActAll(cfg, t, before, now), action, now).0
  {
    assert (before + [action])[..|before|] == before;
  }

  function SelfActionFor(t: Task, last: AuditEvent): Action {
    match last
    case EvVerified => Close(t.assignee, "")
    case EvAcknowledged => Acknowledge(t.assignee)
    case _ => RecordNotified("")
  }

  /** The events before the last operation. */
  function SelfFront(events: seq<AuditEvent>): seq<AuditEvent>
    requires |events| > 2
  {
    events[..if events[|events| - 1] == EvVerified then |events| - 2 else |events| - 1]
  }

  lemma SelfLast(events: seq<AuditEvent>)
    requires |events| > 2 && SelfHistory(events).Some?
    ensures var last := events[|events| - 1]; last == EvNotified || last == EvAcknowledged || last == EvVerified
    ensures SelfHistory(SelfFront(events)).Some? && |SelfFront(events)| < |events|
    ensures events[|events| - 1] == EvAcknowledged ==> SelfHistory(SelfFront(events)) == Some(Assigned)
    ensures events[|events| - 1] == EvVerified ==>
              events[|events| - 2] == EvClosureRequested && SelfHistory(SelfFront(events)) == Some(InProgress)
  {
  }

  lemma {:induction false} SelfReachesOne(cfg: Settings, t: Task, events: seq<AuditEvent>, now: int)
    requires |events| > 2 && events[|events| - 1] != EvVerified && SelfHistory(events).Some?
    requires SelfOk(cfg, t) && Events(t.audit) == SelfFront(events)
    ensures Events(Act(cfg, t, SelfActionFor(t, events[|events| - 1]), now).0.audit) == events
  {
    SelfLast(events);
    SelfStatuses(SelfFront(events));
    SelfAct(cfg, t, SelfActionFor(t, events[|events| - 1]), now);
    assert events == SelfFront(events) + [events[|events| - 1]];
  }

  lemma {:induction false} SelfReachesClosure(cfg: Settings, t: Task, events: seq<AuditEvent>, now: int)
    requires |events| > 2 && events[|events| - 1] == EvVerified && SelfHistory(events).Some?
    requires SelfOk(cfg, t) && Events(t.audit) == SelfFront(events)
    ensures Events(Act(cfg, t, SelfActionFor(t, EvVerified), now).0.audit) == events
  {
    SelfLast(events);
    SelfAct(cfg, t, SelfActionFor(t, EvVerified), now);
    assert events == SelfFront(events) + [EvClosureRequested, EvVerified];
  }

  /** And every history of this kind arises from some sequence of operations. */
  lemma {:induction false} SelfClosingHistoriesArise(cfg: Settings, t: Task, events: seq<AuditEvent>, now: int)
    returns (actions: seq<Action>)
    requires JustAssigned(t) && ClosesItself(cfg, t) && SelfHistory(events).Some?
    ensures Events(ActAll(cfg, t, actions, now).audit) == events
    decreases |events|
  {
    if |events| == 2 {
      actions := [];
    } else {
      SelfLast(events);
      var earlier := SelfClosingHistoriesArise(cfg, t, SelfFront(events), now);
      SelfClosingHistoriesOnly(cfg, t, earlier, now);
      var before := ActAll(cfg, t, earlier, now);
      if events[|events| - 1] == EvVerified {
        SelfReachesClosure(cfg, before, events, now);
      } else {
        SelfReachesOne(cfg, before, events, now);
      }
      ActAllOneMore(cfg, t, earlier, SelfActionFor(before, events[|events| - 1]), now);
      actions := earlier + [SelfActionFor(before, events[|events| - 1])];
    }
  }

  // ----- starting, and what is written down -----

  /** Acknowledging and resuming are for the assignee, from ASSIGNED and from REOPENED. */
  lemma WhoStarts(cfg: Settings, t: Task, actor: UserId, now: int)
    ensures var (a, r) := (Act(cfg, t, Acknowledge(actor), now), Act(cfg, t, Resume(actor), now));
            && a.1 == (if actor != t.assignee then NotAssignee
                       else if t.status == Assigned then Done else InvalidStatus)
            && r.1 == (if actor != t.assignee then NotAssignee
                       else if t.status == Reopened then Done else InvalidStatus)
            && (a.1 == Done ==> a.0 == t.(status := InProgress,
                  audit := t.audit + [AuditEntry(EvAcknowledged, actor, now, Text(""))]))
            && (r.1 == Done ==> r.0 == t.(status := InProgress,
                  audit := t.audit + [AuditEntry(EvResumed, actor, now, Text(""))]))
  {
  }

  /** The trail quotes a text up to its first thousand characters, while the row keeps all of it. */
  lemma QuotedInPart(cfg: Settings, t: Task, actor: UserId, text: string, now: int)
    requires t.status == PendingVerification && Verifier(cfg, t) == actor
    ensures var r := Act(cfg, t, Reopen(actor, text), now).0;
            var quoted := r.audit[|t.audit|].details;
            && r.rejectionReason == text && |r.audit| == |t.audit| + 1 && quoted.Text?
            && quoted.text == (if |text| <= 1000 then text else text[..1000])
  {
  }

  // ----- who decides -----

  /**
   * In manager mode, for an assignee with a manager on the map, that manager decides and nobody
   * else; otherwise the creator and nobody else.
   */
  lemma WhoDecides(cfg: Settings, t: Task, actor: UserId, reason: string, now: int)
    ensures cfg.verifierMode == ManagerMap && t.assignee in cfg.managers && cfg.managers[t.assignee] != "" ==>
              && (Act(cfg, t, Verify(actor), now).1 != NotVerifier <==> actor == cfg.managers[t.assignee])
              && (Act(cfg, t, Reopen(actor, reason), now).1 != NotVerifier <==> actor == cfg.managers[t.assignee])
    ensures cfg.verifierMode == CreatedBy || t.assignee !in cfg.managers || cfg.managers[t.assignee] == "" ==>
              && (Act(cfg, t, Verify(actor), now).1 != NotVerifier <==> actor == t.createdBy)
              && (Act(cfg, t, Reopen(actor, reason), now).1 != NotVerifier <==> actor == t.createdBy)
  {
  }

  /** The decision of the entitled user on a task that awaits it, and of no other. */
  lemma DecisionEffect(cfg: Settings, t: Task, actor: UserId, reason: string, now: int)
    ensures var (verified, reopened) := (Act(cfg, t, Verify(actor), now), Act(cfg, t, Reopen(actor, reason), now));
            && (verified.1 == Done <==> Verifier(cfg, t) == actor && t.status == PendingVerification)
            && (reopened.1 == Done <==> Verifier(cfg, t) == actor && t.status == PendingVerification)
            && (verified.1 == Done ==> verified.0.status == Verified && verified.0.verifiedAt == Some(now))
            && (reopened.1 == Done ==> reopened.0.status == Reopened && reopened.0.rejectionReason == reason)
  {
  }

  // ----- closing -----

  /**
   * A close is verified at once exactly when that is switched on, the assignee created the task, and
   * no other user is its manager on the map.
   */
  lemma ClosesAtOnceIff(cfg: Settings, t: Task, notes: string, now: int)
    requires t.status in {Assigned, InProgress, Reopened}
    ensures Act(cfg, t, Close(t.assignee, notes), now).0.status == Verified
       <==> && cfg.selfCloseAutoVerify && t.createdBy == t.assignee
            && (cfg.verifierMode == ManagerMap && t.assignee in cfg.managers ==>
                  cfg.managers[t.assignee] == "" || cfg.managers[t.assignee] == t.assignee)
  {
  }

  /** Exactly when a close is accepted. */
  lemma CloseAccepted(cfg: Settings, t: Task, actor: UserId, notes: string, now: int)
    requires TaskOk(cfg, t)
    ensures Act(cfg, t, Close(actor, notes), now).1 == Done
            <==> actor == t.assignee && t.status != Verified
                 && (ClosesItself(cfg, t) ==> t.status != PendingVerification)
  {
    HistoryStatuses(t.audit);
  }

  /**
   * What a refused close leaves behind. Anybody but the assignee is told so and the row is untouched.
   * The assignee is refused for the status: a self-closing task is untouched, any other task keeps
   * status and trail but has the new notes and closing time committed.
   */
  lemma RefusedCloseEffect(cfg: Settings, t: Task, actor: UserId, notes: string, now: int)
    requires TaskOk(cfg, t) && Act(cfg, t, Close(actor, notes), now).1 != Done
    ensures Act(cfg, t, Close(actor, notes), now)
         == if actor != t.assignee then (t, NotAssignee)
            else if ClosesItself(cfg, t) then (t, InvalidStatus)
            else (t.(closureNotes := notes, closedAt := Some(now)), InvalidStatus)
  {
    HistoryStatuses(t.audit);
  }

  /** Any other refused operation leaves the row exactly as it was. */
  lemma RefusalChangesNothing(cfg: Settings, t: Task, action: Action, now: int)
    requires !action.Close? && Act(cfg, t, action, now).1 != Done
    ensures Act(cfg, t, action, now).0 == t
  {
  }

  /** Closing and verifying at once equals a closure request followed by a verification. */
  lemma SelfCloseRefinesTwoSteps(cfg: Settings, t: Task, notes: string, now: int)
    requires ClosesItself(cfg, t) && t.status in {Assigned, InProgress, Reopened}
    ensures var once := Act(cfg, t, Close(t.assignee, notes), now);
            var requested := ClosureRequested(t, t.assignee, notes, now);
            var twice := Act(cfg, requested.0, Verify(t.assignee), now);
            && once.1 == Done && requested.1 == Done && twice.1 == Done
            && Events(once.0.audit) == Events(twice.0.audit)
            && once.0.(audit := []) == twice.0.(audit := [])
  {
  }
}
