/** The daily jobs: the overdue refresh with its escalations, and the open-task summaries. */
module ScheduledJobs {
  import opened Domain
  import opened Wrappers
  import opened Tasks
  import opened TaskIds
  import opened Texts
  import opened Ledger
  import Storage
  import Outbox

  type Rows = map<TaskId, Task>

  // ----- idempotency keys -----

  /** A day is named in a key by its number; only that different days differ matters. */
  function RefreshKey(day: nat): string { "overdue_refresh:" + Dec(day) }

  function EscalationKey(day: nat): string { "escalation_scan:" + Dec(day) }

  function SummaryKey(day: nat): string { "daily_summary:" + Dec(day) }

  const NOTIFY := "notify:"

  function AssigneeNoticeKey(day: nat, id: TaskId): string {
    NOTIFY + ("overdue_assignee:" + Dec(day) + ":" + id.Print())
  }

  function CreatorNoticeKey(day: nat, id: TaskId): string {
    NOTIFY + ("overdue_creator:" + Dec(day) + ":" + id.Print())
  }

  function SummaryNoticeKey(day: nat, who: UserId, force: bool): string {
    NOTIFY + ((if force then "daily_summary:force:" else "daily_summary:") + Dec(day) + ":" + who)
  }

  predicate IsNoticeKey(key: string) { NOTIFY <= key }

  /** Keys of different jobs, of different days, and of notices never collide. */
  lemma JobKeysDiffer(d: nat, e: nat, key: string)
    ensures RefreshKey(d) == RefreshKey(e) ==> d == e
    ensures EscalationKey(d) == EscalationKey(e) ==> d == e
    ensures SummaryKey(d) == SummaryKey(e) ==> d == e
    ensures RefreshKey(d) != EscalationKey(e) && RefreshKey(d) != SummaryKey(e) && EscalationKey(d) != SummaryKey(e)
    ensures IsNoticeKey(key) ==> key != RefreshKey(d) && key != EscalationKey(d) && key != SummaryKey(d)
  {
    DecValue(d);
    DecValue(e);
    assert RefreshKey(d)[16..] == Dec(d) && RefreshKey(e)[16..] == Dec(e);
    assert EscalationKey(d)[16..] == Dec(d) && EscalationKey(e)[16..] == Dec(e);
    assert SummaryKey(d)[14..] == Dec(d) && SummaryKey(e)[14..] == Dec(e);
    assert RefreshKey(d)[0] == 'o' && EscalationKey(e)[0] == 'e' && SummaryKey(e)[0] == 'd';
    assert EscalationKey(d)[0] == 'e' && SummaryKey(d)[0] == 'd';
    if IsNoticeKey(key) {
      assert key[0] == NOTIFY[0] == 'n';
    }
  }

  /** A key of the form notify:<kind>:<day>:<rest> fixes day and rest. */
  lemma DayAndRest(kind: string, d: nat, rest: string, e: nat, other: string)
    requires NOTIFY + (kind + Dec(d) + ":" + rest) == NOTIFY + (kind + Dec(e) + ":" + other)
    ensures d == e && rest == other
  {
    AfterPrefix(NOTIFY, kind + Dec(d) + ":" + rest, kind + Dec(e) + ":" + other);
    assert kind + (Dec(d) + ":" + rest) == kind + Dec(d) + ":" + rest;
    assert kind + (Dec(e) + ":" + other) == kind + Dec(e) + ":" + other;
    AfterPrefix(kind, Dec(d) + ":" + rest, Dec(e) + ":" + other);
    SplitAtFirst(':', Dec(d), rest, Dec(e), other);
    DecValue(d);
    DecValue(e);
  }

  lemma AfterPrefix(prefix: string, a: string, b: string)
    requires prefix + a == prefix + b
    ensures a == b
  {
    assert (prefix + a)[|prefix|..] == a && (prefix + b)[|prefix|..] == b;
  }

  /** The notices of a day to a task's assignee, to its creator, and the summaries all have keys of their own. */
  lemma NoticeKeysDiffer(d: nat, a: TaskId, e: nat, b: TaskId, who: UserId, other: UserId, force: bool)
    ensures AssigneeNoticeKey(d, a) == AssigneeNoticeKey(e, b) ==> d == e && a == b
    ensures CreatorNoticeKey(d, a) == CreatorNoticeKey(e, b) ==> d == e && a == b
    ensures AssigneeNoticeKey(d, a) != CreatorNoticeKey(e, b)
    ensures SummaryNoticeKey(d, who, force) == SummaryNoticeKey(e, other, force) ==> d == e && who == other
    ensures SummaryNoticeKey(d, who, true) != SummaryNoticeKey(e, other, false)
    ensures SummaryNoticeKey(d, who, force) != AssigneeNoticeKey(e, b)
    ensures SummaryNoticeKey(d, who, force) != CreatorNoticeKey(e, b)
  {
    if AssigneeNoticeKey(d, a) == AssigneeNoticeKey(e, b) {
      DayAndRest("overdue_assignee:", d, a.Print(), e, b.Print());
      PublicIdInjective(a.dept, a.year, a.number, b.dept, b.year, b.number);
    }
    if CreatorNoticeKey(d, a) == CreatorNoticeKey(e, b) {
      DayAndRest("overdue_creator:", d, a.Print(), e, b.Print());
      PublicIdInjective(a.dept, a.year, a.number, b.dept, b.year, b.number);
    }
    NoticesDiffer(d, a, e, b);
    SummariesDiffer(d, who, e, b, other, force);
    if SummaryNoticeKey(d, who, force) == SummaryNoticeKey(e, other, force) {
      DayAndRest(if force then "daily_summary:force:" else "daily_summary:", d, who, e, other);
    }
  }

  lemma DifferAt(a: string, b: string, i: nat)
    requires i < |a| && i < |b| && a[i] != b[i]
    ensures a != b
  {
  }

  lemma NoticesDiffer(d: nat, a: TaskId, e: nat, b: TaskId)
    ensures AssigneeNoticeKey(d, a) != CreatorNoticeKey(e, b)
  {
    LettersOfKinds(d, a, "", false);
    LettersOfKinds(e, b, "", false);
    DifferAt(AssigneeNoticeKey(d, a), CreatorNoticeKey(e, b), |NOTIFY| + 8);
  }

  lemma SummariesDiffer(d: nat, who: UserId, e: nat, b: TaskId, other: UserId, force: bool)
    ensures SummaryNoticeKey(d, who, true) != SummaryNoticeKey(e, other, false)
    ensures SummaryNoticeKey(d, who, force) != AssigneeNoticeKey(e, b)
    ensures SummaryNoticeKey(d, who, force) != CreatorNoticeKey(e, b)
  {
    LettersOfKinds(d, b, who, force);
    LettersOfKinds(d, b, who, true);
    LettersOfKinds(e, b, other, false);
    DifferAt(SummaryNoticeKey(d, who, force), AssigneeNoticeKey(e, b), |NOTIFY|);
    DifferAt(SummaryNoticeKey(d, who, force), CreatorNoticeKey(e, b), |NOTIFY|);
    DifferAt(SummaryNoticeKey(d, who, true), SummaryNoticeKey(e, other, false), |NOTIFY| + 14);
  }

  lemma LettersOfKinds(d: nat, id: TaskId, who: UserId, force: bool)
    ensures |AssigneeNoticeKey(d, id)| > |NOTIFY| + 8 && |CreatorNoticeKey(d, id)| > |NOTIFY| + 8
    ensures |SummaryNoticeKey(d, who, force)| > |NOTIFY| + 14
    ensures AssigneeNoticeKey(d, id)[|NOTIFY|] == 'o' && AssigneeNoticeKey(d, id)[|NOTIFY| + 8] == 'a'
    ensures CreatorNoticeKey(d, id)[|NOTIFY|] == 'o' && CreatorNoticeKey(d, id)[|NOTIFY| + 8] == 'c'
    ensures SummaryNoticeKey(d, who, force)[|NOTIFY|] == 'd'
    ensures if force then SummaryNoticeKey(d, who, force)[|NOTIFY| + 14] == 'f'
            else IsDigit(SummaryNoticeKey(d, who, force)[|NOTIFY| + 14])
  {
    assert !force ==> SummaryNoticeKey(d, who, force)[|NOTIFY| + 14] == Dec(d)[0];
  }

  // ----- overdue tasks -----

  function DaysOverdue(due: int, today: int): nat {
    if due < today then today - due else 0
  }

  predicate OverdueInProgress(t: Task, today: int) {
    t.status == InProgress && t.due < today
  }

  function AllOverdueInProgress(tasks: Rows, today: int): set<TaskId> {
    set id | id in tasks && OverdueInProgress(tasks[id], today)
  }

  /** After a refresh no flag is wrong, a second refresh that day changes nothing, and the flags answer the query. */
  lemma RefreshSettlesFlags(tasks: Rows, today: int)
    ensures var r := Flagged(tasks, today);
            && r.Keys == tasks.Keys
            && (forall id | id in tasks ::
                  r[id].overdue <==> tasks[id].due < today && tasks[id].status !in {Verified, Cancelled})
            && Misflagged(r, today) == {} && Flagged(r, today) == r
            && (forall id | id in tasks ::
                  id in AllOverdueInProgress(r, today) <==> r[id].overdue && r[id].status == InProgress)
            && (tasks == r <==> Misflagged(tasks, today) == {})
  {
    var r := Flagged(tasks, today);
    assert r.Keys == tasks.Keys;
    assert Flagged(r, today) == r;
    if Misflagged(tasks, today) == {} {
      forall id | id in tasks ensures tasks[id] == r[id] {
        assert id !in Misflagged(tasks, today);
      }
    } else {
      var id :| id in Misflagged(tasks, today);
      assert tasks[id] != r[id];
    }
  }

  // ----- the overdue job -----

  /** One task's turn: what its two notices do when sent. */
  datatype Visit = Visit(id: TaskId, toAssignee: Outbox.Attempt, toCreator: Outbox.Attempt)

  /** How the two notices of each task go when sent. */
  type NoticeOutcomes = TaskId -> (Outbox.Attempt, Outbox.Attempt)

  function VisitOf(sends: NoticeOutcomes, id: TaskId): Visit {
    Visit(id, sends(id).0, sends(id).1)
  }

  /** Every visit went as the sends of its task go. */
  ghost predicate WentAs(sends: NoticeOutcomes, visits: seq<Visit>) {
    forall x | 0 <= x < |visits| :: visits[x] == VisitOf(sends, visits[x].id)
  }

  /** A duplicate notice is not sent, so it cannot raise. */
  predicate Raises(b: Outbox.Box, key: string, forced: bool, attempt: Outbox.Attempt) {
    attempt.raises && (forced || key !in b.keys)
  }

  /** The notices of one task; the creator's is not attempted when the assignee's raises. */
  function Visited(tasks: Rows, acc: (Outbox.Box, nat), day: nat, v: Visit): (Outbox.Box, nat) {
    if v.id !in tasks then acc
    else
      var k1, k2 := AssigneeNoticeKey(day, v.id), CreatorNoticeKey(day, v.id);
      var first := Outbox.Delivered(acc.0, k1, tasks[v.id].assignee, false, v.toAssignee);
      if Raises(acc.0, k1, false, v.toAssignee) then (first, acc.1)
      else
        var second := Outbox.Delivered(first, k2, tasks[v.id].createdBy, false, v.toCreator);
        (second, if Raises(first, k2, false, v.toCreator) then acc.1 else acc.1 + 2)
  }

  function Escalated(tasks: Rows, b: Outbox.Box, day: nat, visits: seq<Visit>): (Outbox.Box, nat) {
    if visits == [] then (b, 0)
    else Visited(tasks, Escalated(tasks, b, day, visits[..|visits| - 1]), day, visits[|visits| - 1])
  }

  /** The row a notice leaves when it was sent. */
  function NoticeRow(key: string, to: UserId, a: Outbox.Attempt): Outbox.Delivery {
    Outbox.Delivery(key, to, a.activityOk, a.botOk, !a.activityOk && !a.botOk)
  }

  /** Two new notices that do not raise: one to the assignee, one to the creator, and both count. */
  lemma VisitTellsBoth(tasks: Rows, acc: (Outbox.Box, nat), day: nat, v: Visit)
    requires v.id in tasks && !v.toAssignee.raises && !v.toCreator.raises
    requires AssigneeNoticeKey(day, v.id) !in acc.0.keys && CreatorNoticeKey(day, v.id) !in acc.0.keys
    ensures var (k1, k2) := (AssigneeNoticeKey(day, v.id), CreatorNoticeKey(day, v.id));
            var (r, total) := Visited(tasks, acc, day, v);
            && total == acc.1 + 2 && r.keys == acc.0.keys + {k1} + {k2} && r.resends == acc.0.resends
            && r.rows == acc.0.rows + [NoticeRow(k1, tasks[v.id].assignee, v.toAssignee)]
                         + [NoticeRow(k2, tasks[v.id].createdBy, v.toCreator)]
  {
    var (k1, k2) := (AssigneeNoticeKey(day, v.id), CreatorNoticeKey(day, v.id));
    NoticesDiffer(day, v.id, day, v.id);
    Outbox.DeliveredNew(acc.0, k1, tasks[v.id].assignee, v.toAssignee);
    var first := Outbox.Delivered(acc.0, k1, tasks[v.id].assignee, false, v.toAssignee);
    Outbox.DeliveredNew(first, k2, tasks[v.id].createdBy, v.toCreator);
  }

  /** A new notice that raises ends the turn: nothing more is sent or counted. */
  lemma VisitEndsAtFailure(tasks: Rows, acc: (Outbox.Box, nat), day: nat, v: Visit)
    requires v.id in tasks
    ensures var (k1, k2) := (AssigneeNoticeKey(day, v.id), CreatorNoticeKey(day, v.id));
            var (r, total) := Visited(tasks, acc, day, v);
            && (v.toAssignee.raises && k1 !in acc.0.keys ==> r == acc.0.(keys := acc.0.keys + {k1}))
            && (total == acc.1 + 2
                <==> !(v.toAssignee.raises && k1 !in acc.0.keys) && !(v.toCreator.raises && k2 !in acc.0.keys))
            && (total == acc.1 + 2 || total == acc.1)
            && (k1 in acc.0.keys && k2 in acc.0.keys ==> r == acc.0)
  {
    NoticesDiffer(day, v.id, day, v.id);
  }

  predicate Late(t: Task, day: nat, threshold: int) {
    OverdueInProgress(t, day) && DaysOverdue(t.due, day) >= threshold
  }

  /** The visits cover, once each, the late tasks among `some`. */
  ghost predicate Covers(tasks: Rows, some: set<TaskId>, day: nat, threshold: int, visits: seq<Visit>) {
    && (forall x | 0 <= x < |visits| ::
          visits[x].id in some && visits[x].id in tasks && Late(tasks[visits[x].id], day, threshold))
    && (forall x, y | 0 <= x < y < |visits| :: visits[x].id != visits[y].id)
    && (forall id | id in some && id in tasks && Late(tasks[id], day, threshold) ::
          exists x :: 0 <= x < |visits| && visits[x].id == id)
  }

  /** The visits of a job cover, once each, the tasks in progress overdue by at least the threshold. */
  ghost predicate Escalation(tasks: Rows, day: nat, threshold: int, visits: seq<Visit>) {
    Covers(tasks, tasks.Keys, day, threshold, visits)
  }

  /** A task is visited exactly when it is in progress and was due at least the threshold's days, and one, ago. */
  lemma VisitedIffDueBefore(tasks: Rows, day: nat, threshold: int, visits: seq<Visit>, id: TaskId)
    requires Escalation(tasks, day, threshold, visits)
    ensures (exists x :: 0 <= x < |visits| && visits[x].id == id)
       <==> && id in tasks && tasks[id].status == InProgress
            && tasks[id].due <= day - 1 && tasks[id].due <= day - threshold
  {
    if id in tasks && tasks[id].status == InProgress && tasks[id].due <= day - 1 && tasks[id].due <= day - threshold {
      assert Late(tasks[id], day, threshold);
    }
  }

  datatype World = World(store: Store, box: Outbox.Box)

  datatype JobStats = JobStats(flagsUpdated: nat, overdueTasks: nat, notifications: nat, skipped: nat)
  datatype JobResult = Finished(stats: JobStats) | RolledBack

  /** The job's one transaction; `threshold` is None when the escalation rules cannot be read. */
  function OverdueJob(w: World, day: nat, threshold: Option<int>, visits: seq<Visit>): (World, JobResult) {
    if RefreshKey(day) in w.box.keys then (w, Finished(JobStats(0, 0, 0, 1)))
    else if threshold.None? then (w, RolledBack)
    else
      var tasks := Flagged(w.store.tasks, day);
      var changed, overdue := |Misflagged(w.store.tasks, day)|, |AllOverdueInProgress(tasks, day)|;
      var consumed := w.box.(keys := w.box.keys + {RefreshKey(day)});
      if EscalationKey(day) in consumed.keys then
        (World(w.store.(tasks := tasks), consumed), Finished(JobStats(changed, overdue, 0, 0)))
      else
        var r := Escalated(tasks, consumed.(keys := consumed.keys + {EscalationKey(day)}), day, visits);
        (World(w.store.(tasks := tasks), r.0), Finished(JobStats(changed, overdue, r.1, 0)))
  }

  // ----- the daily summary -----

  predicate Open(s: Status) {
    s in {Created, Assigned, InProgress, PendingClosure, PendingVerification, Reopened}
  }

  /** The six open statuses are the ones that are not terminal. */
  lemma OpenIsNotTerminal(s: Status)
    ensures Open(s) <==> !Terminal(s)
  {
    match s
    case Created | Assigned | InProgress | PendingClosure | PendingVerification | Verified | Reopened | Cancelled =>
  }

  function OpenOf(tasks: Rows, who: UserId): set<TaskId> {
    set id | id in tasks && tasks[id].assignee == who && Open(tasks[id].status)
  }

  function OpenAssignees(tasks: Rows): set<UserId> {
    set id | id in tasks && tasks[id].status !in {Verified, Cancelled} :: tasks[id].assignee
  }

  predicate Distinct<T(==)>(s: seq<T>) {
    forall x, y | 0 <= x < y < |s| :: s[x] != s[y]
  }

  /** A user's open tasks, each once, by due date. */
  ghost predicate OpenList(tasks: Rows, who: UserId, ids: seq<TaskId>) {
    && (forall id :: id in ids <==> id in OpenOf(tasks, who))
    && Distinct(ids)
    && (forall x | 0 <= x < |ids| :: ids[x] in tasks)
    && (forall x, y | 0 <= x < y < |ids| :: tasks[ids[x]].due <= tasks[ids[y]].due)
  }

  /** One summary sent: to whom, listing which tasks, and how the attempt went. */
  datatype Summary = Summary(assignee: UserId, tasks: seq<TaskId>, attempt: Outbox.Attempt)

  datatype SummaryStats = SummaryStats(assignees: nat, sent: nat, skipped: nat, testMode: bool)
  datatype SummaryResult = ForceNeedsAssignee | Summarised(stats: SummaryStats)

  function Mailed(acc: (Outbox.Box, SummaryStats), day: nat, force: bool, s: Summary): (Outbox.Box, SummaryStats) {
    var key := SummaryNoticeKey(day, s.assignee, force);
    (Outbox.Delivered(acc.0, key, s.assignee, force, s.attempt),
     if !force && key in acc.0.keys then acc.1.(skipped := acc.1.skipped + 1)
     else if s.attempt.raises then acc.1
     else acc.1.(sent := acc.1.sent + 1))
  }

  function AllMailed(acc: (Outbox.Box, SummaryStats), day: nat, force: bool,
                     mail: seq<Summary>): (Outbox.Box, SummaryStats) {
    if mail == [] then acc
    else Mailed(AllMailed(acc, day, force, mail[..|mail| - 1]), day, force, mail[|mail| - 1])
  }

  /** What one summary leaves: a row for its user when it was sent, and one more of what is counted. */
  lemma SummaryOutcome(acc: (Outbox.Box, SummaryStats), day: nat, force: bool, s: Summary)
    ensures var key := SummaryNoticeKey(day, s.assignee, force);
            var used := !force && key in acc.0.keys;
            var (box, stats) := Mailed(acc, day, force, s);
            && (used ==> box == acc.0 && stats == acc.1.(skipped := acc.1.skipped + 1))
            && (!used && s.attempt.raises ==> box.rows == acc.0.rows && stats == acc.1)
            && (!used && !s.attempt.raises ==>
                  && box.rows == acc.0.rows + [NoticeRow(key, s.assignee, s.attempt)]
                  && stats == acc.1.(sent := acc.1.sent + 1))
            && (!force ==> key in box.keys)
  {
  }

  /** One summary for each of the users `whom`, all of whom have open tasks. */
  ghost predicate MailTo(tasks: Rows, whom: set<UserId>, mail: seq<Summary>) {
    && (forall x | 0 <= x < |mail| ::
          mail[x].assignee in whom && mail[x].tasks != [] && OpenList(tasks, mail[x].assignee, mail[x].tasks))
    && (forall x, y | 0 <= x < y < |mail| :: mail[x].assignee != mail[y].assignee)
    && (forall who | who in whom :: exists x :: 0 <= x < |mail| && mail[x].assignee == who)
  }

  /** Every summary went as the sends to its assignee go. */
  ghost predicate MailWentAs(sends: UserId -> Outbox.Attempt, mail: seq<Summary>) {
    forall x | 0 <= x < |mail| :: mail[x].attempt == sends(mail[x].assignee)
  }

  /** A batch: every assignee with a task that is not terminal, once, with the list of them. */
  ghost predicate Batch(tasks: Rows, mail: seq<Summary>) {
    MailTo(tasks, OpenAssignees(tasks), mail)
  }

  /** A summary for one user; nothing is sent when that user has no open task. */
  ghost predicate Single(tasks: Rows, who: UserId, mail: seq<Summary>) {
    if OpenOf(tasks, who) == {} then mail == []
    else |mail| == 1 && mail[0].assignee == who && OpenList(tasks, who, mail[0].tasks)
  }

  function Concatenated(mail: seq<Summary>): seq<TaskId> {
    if mail == [] then [] else Concatenated(mail[..|mail| - 1]) + mail[|mail| - 1].tasks
  }

  lemma {:induction false} CountInDistinct(ids: seq<TaskId>, id: TaskId)
    requires Distinct(ids)
    ensures multiset(ids)[id] == if id in ids then 1 else 0
  {
    if ids != [] {
      var front := ids[..|ids| - 1];
      assert ids == front + [ids[|ids| - 1]];
      CountInDistinct(front, id);
    }
  }

  lemma {:induction false} CountInMail(tasks: Rows, mail: seq<Summary>, id: TaskId)
    requires forall x | 0 <= x < |mail| :: OpenList(tasks, mail[x].assignee, mail[x].tasks)
    requires forall x, y | 0 <= x < y < |mail| :: mail[x].assignee != mail[y].assignee
    ensures var listed := id in tasks && Open(tasks[id].status)
                          && exists x :: 0 <= x < |mail| && mail[x].assignee == tasks[id].assignee;
            multiset(Concatenated(mail))[id] == if listed then 1 else 0
  {
    if mail != [] {
      var front, last := mail[..|mail| - 1], mail[|mail| - 1];
      CountInMail(tasks, front, id);
      assert OpenList(tasks, last.assignee, last.tasks);
      CountInList(tasks, last.assignee, last.tasks, id);
      if id in tasks { AddressedIn(front, last, mail, tasks[id].assignee); }
    }
  }

  lemma CountInList(tasks: Rows, who: UserId, ids: seq<TaskId>, id: TaskId)
    requires OpenList(tasks, who, ids)
    ensures multiset(ids)[id] == if id in tasks && Open(tasks[id].status) && tasks[id].assignee == who then 1 else 0
  {
    CountInDistinct(ids, id);
    assert id in ids <==> id in OpenOf(tasks, who);
  }

  lemma AddressedIn(front: seq<Summary>, last: Summary, mail: seq<Summary>, who: UserId)
    requires mail == front + [last]
    ensures (exists x :: 0 <= x < |mail| && mail[x].assignee == who)
       <==> (exists x :: 0 <= x < |front| && front[x].assignee == who) || last.assignee == who
  {
    if last.assignee == who {
      assert mail[|front|].assignee == who;
    } else if exists x :: 0 <= x < |front| && front[x].assignee == who {
      var x :| 0 <= x < |front| && front[x].assignee == who;
      assert mail[x].assignee == who;
    }
  }

  /** The lists of a batch hold every task that is not terminal exactly once, and no other task. */
  lemma BatchPartitionsOpenTasks(tasks: Rows, mail: seq<Summary>, id: TaskId)
    requires Batch(tasks, mail)
    ensures multiset(Concatenated(mail))[id] == if id in tasks && !Terminal(tasks[id].status) then 1 else 0
  {
    CountInMail(tasks, mail, id);
    if id in tasks && !Terminal(tasks[id].status) {
      assert tasks[id].assignee in OpenAssignees(tasks);
    }
  }

  function SummaryJob(w: World, day: nat, target: Option<UserId>, force: bool,
                      mail: seq<Summary>): (World, SummaryResult) {
    var batch := target.None? || target.value == "";
    if force && batch then (w, ForceNeedsAssignee)
    else if target.None? && SummaryKey(day) in w.box.keys then (w, Summarised(SummaryStats(0, 0, 1, false)))
    else
      var consumed := if target.None? then w.box.(keys := w.box.keys + {SummaryKey(day)}) else w.box;
      var assignees := if batch then |OpenAssignees(w.store.tasks)| else 1;
      var r := AllMailed((consumed, SummaryStats(assignees, 0, 0, target.Some?)), day, force, mail);
      (w.(box := r.0), Summarised(r.1))
  }

  /**
   * A forced run needs a user. The second batch of a day does nothing but count as skipped; the
   * first consumes the day's key and knows how many assignees there are. A run for one user leaves
   * the day's key alone.
   */
  lemma SummaryJobAnswers(w: World, day: nat, target: Option<UserId>, force: bool, mail: seq<Summary>)
    ensures var (r, result) := SummaryJob(w, day, target, force, mail);
            && r.store == w.store
            && (force && (target == None || target == Some("")) ==> r == w && result == ForceNeedsAssignee)
            && (!force && target == None && SummaryKey(day) in w.box.keys ==>
                  r == w && result == Summarised(SummaryStats(0, 0, 1, false)))
            && (!force && target == None && SummaryKey(day) !in w.box.keys && mail == [] ==>
                  && r.box == w.box.(keys := w.box.keys + {SummaryKey(day)})
                  && result == Summarised(SummaryStats(|OpenAssignees(w.store.tasks)|, 0, 0, false)))
            && (target.Some? && target.value != "" && mail == [] ==>
                  r == w && result == Summarised(SummaryStats(1, 0, 0, true)))
  {
  }

  // ----- runs of the whole program -----

  datatype WorldCommand =
    | Durable(command: Command)
    | Notice(about: string, recipient: UserId, forced: bool, attempt: Outbox.Attempt)
    | Retry(picked: seq<nat>, ok: seq<bool>)
    | Refresh(day: nat, threshold: Option<int>, visits: seq<Visit>)
    | Summarise(day: nat, target: Option<UserId>, force: bool, mail: seq<Summary>)

  function ApplyWorld(cfg: Settings, w: World, c: WorldCommand): World {
    match c
    case Durable(command) => w.(store := Apply(cfg, w.store, command).0)
    case Notice(about, recipient, forced, attempt) =>
      w.(box := Outbox.Delivered(w.box, NOTIFY + about, recipient, forced, attempt))
    case Retry(picked, ok) => w.(box := Outbox.Apply(w.box, Outbox.RetryFailed(picked, ok)))
    case Refresh(day, threshold, visits) => OverdueJob(w, day, threshold, visits).0
    case Summarise(day, target, force, mail) => SummaryJob(w, day, target, force, mail).0
  }

  function RunWorld(cfg: Settings, w: World, commands: seq<WorldCommand>): World {
    if commands == [] then w
    else ApplyWorld(cfg, RunWorld(cfg, w, commands[..|commands| - 1]), commands[|commands| - 1])
  }

  const START: World := World(EMPTY, Outbox.EMPTY)

  // ----- keys only accumulate, and the notification service only adds notice keys -----

  /** `after` has the keys `before` and notice keys; all its rows are notices. */
  ghost predicate AddsNotices(before: set<string>, after: Outbox.Box) {
    && before <= after.keys
    && (forall k | k in after.keys && k !in before :: IsNoticeKey(k))
    && (forall i | 0 <= i < |after.rows| :: IsNoticeKey(after.rows[i].key))
  }

  lemma DeliveredAddsNotices(before: set<string>, b: Outbox.Box, key: string, to: UserId, forced: bool,
                             a: Outbox.Attempt)
    requires AddsNotices(before, b) && IsNoticeKey(key)
    ensures AddsNotices(before, Outbox.Delivered(b, key, to, forced, a))
  {
  }

  lemma {:induction false} EscalatedAddsNotices(before: set<string>, tasks: Rows, b: Outbox.Box, day: nat,
                                                visits: seq<Visit>)
    requires AddsNotices(before, b)
    ensures AddsNotices(before, Escalated(tasks, b, day, visits).0)
  {
    if visits != [] {
      var v := visits[|visits| - 1];
      var r := Escalated(tasks, b, day, visits[..|visits| - 1]);
      EscalatedAddsNotices(before, tasks, b, day, visits[..|visits| - 1]);
      if v.id in tasks {
        var k1, k2 := AssigneeNoticeKey(day, v.id), CreatorNoticeKey(day, v.id);
        DeliveredAddsNotices(before, r.0, k1, tasks[v.id].assignee, false, v.toAssignee);
        var first := Outbox.Delivered(r.0, k1, tasks[v.id].assignee, false, v.toAssignee);
        DeliveredAddsNotices(before, first, k2, tasks[v.id].createdBy, false, v.toCreator);
      }
    }
  }

  lemma {:induction false} MailAddsNotices(before: set<string>, acc: (Outbox.Box, SummaryStats), day: nat,
                                           force: bool, mail: seq<Summary>)
    requires AddsNotices(before, acc.0)
    ensures AddsNotices(before, AllMailed(acc, day, force, mail).0)
  {
    if mail != [] {
      var last := mail[|mail| - 1];
      var r := AllMailed(acc, day, force, mail[..|mail| - 1]);
      MailAddsNotices(before, acc, day, force, mail[..|mail| - 1]);
      DeliveredAddsNotices(before, r.0, SummaryNoticeKey(day, last.assignee, force), last.assignee, force,
                           last.attempt);
    }
  }

  lemma {:induction false} RetriedAddsNotices(before: set<string>, b: Outbox.Box, picked: seq<nat>, ok: seq<bool>)
    requires Outbox.InRange(b, picked) && AddsNotices(before, b)
    ensures AddsNotices(before, Outbox.Retried(b, picked, ok))
  {
    if picked != [] {
      var front, i := Outbox.Retried(b, picked[..|picked| - 1], ok), picked[|picked| - 1];
      RetriedAddsNotices(before, b, picked[..|picked| - 1], ok);
      assert IsNoticeKey(front.rows[i].key);
      assert IsNoticeKey(Outbox.RowRetryKey(front.rows, i));
    }
  }

  /** The refresh and escalation keys of a day are present together. */
  ghost predicate KeysTogether(w: World) {
    && (forall i | 0 <= i < |w.box.rows| :: IsNoticeKey(w.box.rows[i].key))
    && (forall day: nat :: RefreshKey(day) in w.box.keys <==> EscalationKey(day) in w.box.keys)
  }

  /** Which job keys one command adds: both keys of a day at once, or neither. */
  lemma JobKeysAdded(cfg: Settings, w: World, c: WorldCommand, day: nat)
    requires KeysTogether(w)
    ensures var r, done := ApplyWorld(cfg, w, c).box, c.Refresh? && c.day == day && c.threshold.Some?;
            && (RefreshKey(day) in r.keys <==> RefreshKey(day) in w.box.keys || done)
            && (EscalationKey(day) in r.keys <==> EscalationKey(day) in w.box.keys || done)
            && (forall i | 0 <= i < |r.rows| :: IsNoticeKey(r.rows[i].key))
  {
    AddsJobKeys(cfg, w, c);
    JobKeysIn(w, c, day);
    JobKeysDiffer(day, day, RefreshKey(day));
    JobKeysDiffer(day, day, EscalationKey(day));
  }

  lemma JobKeysIn(w: World, c: WorldCommand, day: nat)
    ensures var before, done := JobKeysOf(w, c), c.Refresh? && c.day == day && c.threshold.Some?;
            && (RefreshKey(day) in before <==> RefreshKey(day) in w.box.keys || done)
            && (EscalationKey(day) in before <==> EscalationKey(day) in w.box.keys || done)
  {
    match c
    case Refresh(other, _, _) =>
      JobKeysDiffer(day, other, "");
      JobKeysDiffer(other, day, "");
    case Summarise(other, _, _, _) =>
      JobKeysDiffer(day, other, "");
    case _ =>
  }

  /** The keys after a command, notice keys aside. */
  function JobKeysOf(w: World, c: WorldCommand): set<string> {
    match c
    case Refresh(day, threshold, _) =>
      if threshold.Some? then w.box.keys + {RefreshKey(day), EscalationKey(day)} else w.box.keys
    case Summarise(day, target, force, _) =>
      if target.None? && !force then w.box.keys + {SummaryKey(day)} else w.box.keys
    case _ => w.box.keys
  }

  lemma RefreshAddsKeys(w: World, day: nat, threshold: Option<int>, visits: seq<Visit>)
    requires KeysTogether(w)
    ensures AddsNotices(JobKeysOf(w, Refresh(day, threshold, visits)), OverdueJob(w, day, threshold, visits).0.box)
  {
    JobKeysDiffer(day, day, RefreshKey(day));
    if RefreshKey(day) in w.box.keys {
      assert EscalationKey(day) in w.box.keys;
      assert JobKeysOf(w, Refresh(day, threshold, visits)) == w.box.keys;
    } else if threshold.Some? {
      assert EscalationKey(day) !in w.box.keys;
      var consumed := w.box.(keys := w.box.keys + {RefreshKey(day)} + {EscalationKey(day)});
      assert consumed.keys == JobKeysOf(w, Refresh(day, threshold, visits));
      EscalatedAddsNotices(consumed.keys, Flagged(w.store.tasks, day), consumed, day, visits);
    }
  }

  lemma SummaryAddsKeys(w: World, day: nat, target: Option<UserId>, force: bool, mail: seq<Summary>)
    requires KeysTogether(w)
    ensures AddsNotices(JobKeysOf(w, Summarise(day, target, force, mail)),
                        SummaryJob(w, day, target, force, mail).0.box)
  {
    var consumed := if target.None? then w.box.(keys := w.box.keys + {SummaryKey(day)}) else w.box;
    var batch := target.None? || target.value == "";
    var assignees := if batch then |OpenAssignees(w.store.tasks)| else 1;
    if force && batch {
    } else if target.None? && SummaryKey(day) in w.box.keys {
      assert JobKeysOf(w, Summarise(day, target, force, mail)) == w.box.keys;
    } else {
      MailAddsNotices(consumed.keys, (consumed, SummaryStats(assignees, 0, 0, target.Some?)), day, force, mail);
    }
  }

  lemma AddsJobKeys(cfg: Settings, w: World, c: WorldCommand)
    requires KeysTogether(w)
    ensures AddsNotices(JobKeysOf(w, c), ApplyWorld(cfg, w, c).box)
  {
    match c
    case Durable(_) =>
    case Notice(about, recipient, forced, attempt) =>
      DeliveredAddsNotices(w.box.keys, w.box, NOTIFY + about, recipient, forced, attempt);
    case Retry(picked, ok) =>
      if Outbox.InRange(w.box, picked) { RetriedAddsNotices(w.box.keys, w.box, picked, ok); }
    case Refresh(day, threshold, visits) => RefreshAddsKeys(w, day, threshold, visits);
    case Summarise(day, target, force, mail) => SummaryAddsKeys(w, day, target, force, mail);
  }

  lemma {:induction false} RunKeepsKeysTogether(cfg: Settings, w: World, commands: seq<WorldCommand>)
    requires KeysTogether(w)
    ensures KeysTogether(RunWorld(cfg, w, commands))
    ensures forall day: nat | RefreshKey(day) in w.box.keys :: RefreshKey(day) in RunWorld(cfg, w, commands).box.keys
  {
    if commands != [] {
      var front, c := RunWorld(cfg, w, commands[..|commands| - 1]), commands[|commands| - 1];
      RunKeepsKeysTogether(cfg, w, commands[..|commands| - 1]);
      JobKeysAdded(cfg, front, c, 0);
      forall day: nat
        ensures var keys := ApplyWorld(cfg, front, c).box.keys; RefreshKey(day) in keys <==> EscalationKey(day) in keys
        ensures RefreshKey(day) in front.box.keys ==> RefreshKey(day) in ApplyWorld(cfg, front, c).box.keys
      {
        JobKeysAdded(cfg, front, c, day);
      }
    }
  }

  /**
   * Once the overdue job of a day has been committed, running it again that day changes nothing,
   * whatever happened in between.
   */
  lemma RepeatedJobChangesNothing(cfg: Settings, before: seq<WorldCommand>, day: nat, threshold: int,
                                  visits: seq<Visit>,
                                  between: seq<WorldCommand>, threshold2: Option<int>, visits2: seq<Visit>)
    ensures var w := ApplyWorld(cfg, RunWorld(cfg, START, before), Refresh(day, Some(threshold), visits));
            var later := RunWorld(cfg, w, between);
            OverdueJob(later, day, threshold2, visits2) == (later, Finished(JobStats(0, 0, 0, 1)))
  {
    var first := RunWorld(cfg, START, before);
    RunKeepsKeysTogether(cfg, START, before);
    var w := ApplyWorld(cfg, first, Refresh(day, Some(threshold), visits));
    var one := before + [Refresh(day, Some(threshold), visits)];
    assert one[..|before|] == before;
    assert RunWorld(cfg, START, one) == w;
    RunKeepsKeysTogether(cfg, START, one);
    JobKeysAdded(cfg, first, Refresh(day, Some(threshold), visits), day);
    RunKeepsKeysTogether(cfg, w, between);
  }

  /** In every reachable world a first overdue job of the day with readable rules goes on to escalate. */
  lemma EscalationIsNeverSkipped(cfg: Settings, commands: seq<WorldCommand>, day: nat, threshold: int,
                                 visits: seq<Visit>)
    requires RefreshKey(day) !in RunWorld(cfg, START, commands).box.keys
    ensures var w := RunWorld(cfg, START, commands);
            var tasks := Flagged(w.store.tasks, day);
            var consumed := w.box.(keys := w.box.keys + {RefreshKey(day)} + {EscalationKey(day)});
            var r := Escalated(tasks, consumed, day, visits);
            OverdueJob(w, day, Some(threshold), visits) ==
              (World(w.store.(tasks := tasks), r.0),
               Finished(JobStats(|Misflagged(w.store.tasks, day)|, |AllOverdueInProgress(tasks, day)|, r.1, 0)))
  {
    RunKeepsKeysTogether(cfg, START, commands);
    JobKeysDiffer(day, day, RefreshKey(day));
  }

  // ----- the jobs leave the store reachable -----

  /** The ledger transaction one command makes: a committed overdue job is one flag refresh. */
  function StoreStep(w: World, c: WorldCommand): seq<Command> {
    match c
    case Durable(command) => [command]
    case Refresh(day, threshold, _) =>
      if threshold.None? || RefreshKey(day) in w.box.keys then [] else [RefreshOverdue(day)]
    case _ => []
  }

  function StoreTrace(cfg: Settings, w: World, commands: seq<WorldCommand>): seq<Command> {
    if commands == [] then []
    else
      var front := commands[..|commands| - 1];
      StoreTrace(cfg, w, front) + StoreStep(RunWorld(cfg, w, front), commands[|commands| - 1])
  }

  lemma RunOne(cfg: Settings, s: Store, c: Command)
    ensures Run(cfg, s, [c]) == Apply(cfg, s, c).0
  {
    assert [c][..0] == [];
  }

  lemma StepFollowsLedger(cfg: Settings, w: World, c: WorldCommand)
    ensures ApplyWorld(cfg, w, c).store == Run(cfg, w.store, StoreStep(w, c))
  {
    match c
    case Durable(command) => RunOne(cfg, w.store, command);
    case Refresh(day, threshold, _) => RunOne(cfg, w.store, RefreshOverdue(day));
    case _ =>
  }

  /**
   * With jobs and notices in between, the store still only makes ledger transactions, so all that
   * holds of their runs holds here.
   */
  lemma {:induction false} StoreFollowsLedger(cfg: Settings, w: World, commands: seq<WorldCommand>)
    ensures RunWorld(cfg, w, commands).store == Run(cfg, w.store, StoreTrace(cfg, w, commands))
  {
    if commands != [] {
      var front := commands[..|commands| - 1];
      StoreFollowsLedger(cfg, w, front);
      StepFollowsLedger(cfg, RunWorld(cfg, w, front), commands[|commands| - 1]);
      RunAppend(cfg, w.store, StoreTrace(cfg, w, front), StoreStep(RunWorld(cfg, w, front), commands[|commands| - 1]));
    }
  }

  // ----- notices, retries and jobs together only make outbox commands -----

  /** The notices one visit sends: the creator's is not attempted when the assignee's raises. */
  function VisitStep(tasks: Rows, b: Outbox.Box, day: nat, v: Visit): seq<Outbox.Command> {
    if v.id !in tasks then []
    else
      var k1, k2 := AssigneeNoticeKey(day, v.id), CreatorNoticeKey(day, v.id);
      var first := [Outbox.Deliver(k1, tasks[v.id].assignee, false, v.toAssignee)];
      if Raises(b, k1, false, v.toAssignee) then first
      else first + [Outbox.Deliver(k2, tasks[v.id].createdBy, false, v.toCreator)]
  }

  function VisitTrace(tasks: Rows, b: Outbox.Box, day: nat, visits: seq<Visit>): seq<Outbox.Command> {
    if visits == [] then []
    else
      var front := visits[..|visits| - 1];
      VisitTrace(tasks, b, day, front) + VisitStep(tasks, Escalated(tasks, b, day, front).0, day, visits[|visits| - 1])
  }

  function MailStep(day: nat, force: bool, s: Summary): Outbox.Command {
    Outbox.Deliver(SummaryNoticeKey(day, s.assignee, force), s.assignee, force, s.attempt)
  }

  function MailTrace(day: nat, force: bool, mail: seq<Summary>): seq<Outbox.Command> {
    if mail == [] then []
    else MailTrace(day, force, mail[..|mail| - 1]) + [MailStep(day, force, mail[|mail| - 1])]
  }

  /** The outbox commands of one command; a refresh that is rolled back makes none. */
  function BoxStep(w: World, c: WorldCommand): seq<Outbox.Command> {
    match c
    case Durable(_) => []
    case Notice(about, recipient, forced, attempt) => [Outbox.Deliver(NOTIFY + about, recipient, forced, attempt)]
    case Retry(picked, ok) => [Outbox.RetryFailed(picked, ok)]
    case Refresh(day, threshold, visits) =>
      if RefreshKey(day) in w.box.keys || threshold.None? then []
      else
        var first := Outbox.Apply(w.box, Outbox.Consume(RefreshKey(day)));
        if EscalationKey(day) in first.keys then [Outbox.Consume(RefreshKey(day))]
        else
          var both := Outbox.Apply(first, Outbox.Consume(EscalationKey(day)));
          [Outbox.Consume(RefreshKey(day)), Outbox.Consume(EscalationKey(day))]
          + VisitTrace(Flagged(w.store.tasks, day), both, day, visits)
    case Summarise(day, target, force, mail) =>
      if force && (target.None? || target.value == "") then []
      else if target.None? && SummaryKey(day) in w.box.keys then []
      else (if target.None? then [Outbox.Consume(SummaryKey(day))] else []) + MailTrace(day, force, mail)
  }

  function BoxTrace(cfg: Settings, w: World, commands: seq<WorldCommand>): seq<Outbox.Command> {
    if commands == [] then []
    else
      var front := commands[..|commands| - 1];
      BoxTrace(cfg, w, front) + BoxStep(RunWorld(cfg, w, front), commands[|commands| - 1])
  }

  lemma VisitFollowsOutbox(tasks: Rows, acc: (Outbox.Box, nat), day: nat, v: Visit)
    ensures Visited(tasks, acc, day, v).0 == Outbox.Run(acc.0, VisitStep(tasks, acc.0, day, v))
  {
    if v.id in tasks {
      var k1, k2 := AssigneeNoticeKey(day, v.id), CreatorNoticeKey(day, v.id);
      var first := Outbox.Deliver(k1, tasks[v.id].assignee, false, v.toAssignee);
      Outbox.RunOne(acc.0, first);
      if !Raises(acc.0, k1, false, v.toAssignee) {
        Outbox.RunMore(acc.0, [first], Outbox.Deliver(k2, tasks[v.id].createdBy, false, v.toCreator));
      }
    }
  }

  lemma {:induction false} EscalatedFollowsOutbox(tasks: Rows, b: Outbox.Box, day: nat, visits: seq<Visit>)
    ensures Escalated(tasks, b, day, visits).0 == Outbox.Run(b, VisitTrace(tasks, b, day, visits))
  {
    if visits != [] {
      var front, v := visits[..|visits| - 1], visits[|visits| - 1];
      var r := Escalated(tasks, b, day, front);
      EscalatedFollowsOutbox(tasks, b, day, front);
      VisitFollowsOutbox(tasks, r, day, v);
      Outbox.RunAppend(b, VisitTrace(tasks, b, day, front), VisitStep(tasks, r.0, day, v));
    }
  }

  lemma {:induction false} MailFollowsOutbox(acc: (Outbox.Box, SummaryStats), day: nat, force: bool,
                                             mail: seq<Summary>)
    ensures AllMailed(acc, day, force, mail).0 == Outbox.Run(acc.0, MailTrace(day, force, mail))
  {
    if mail != [] {
      var front, s := mail[..|mail| - 1], mail[|mail| - 1];
      MailFollowsOutbox(acc, day, force, front);
      Outbox.RunMore(acc.0, MailTrace(day, force, front), MailStep(day, force, s));
    }
  }

  lemma StepFollowsOutbox(cfg: Settings, w: World, c: WorldCommand)
    ensures ApplyWorld(cfg, w, c).box == Outbox.Run(w.box, BoxStep(w, c))
  {
    match c
    case Durable(_) =>
    case Notice(_, _, _, _) =>
      Outbox.RunOne(w.box, BoxStep(w, c)[0]);
    case Retry(_, _) =>
      Outbox.RunOne(w.box, BoxStep(w, c)[0]);
    case Refresh(day, threshold, visits) => RefreshFollowsOutbox(w, day, threshold, visits);
    case Summarise(day, target, force, mail) => SummaryFollowsOutbox(w, day, target, force, mail);
  }

  lemma RefreshFollowsOutbox(w: World, day: nat, threshold: Option<int>, visits: seq<Visit>)
    ensures OverdueJob(w, day, threshold, visits).0.box
         == Outbox.Run(w.box, BoxStep(w, Refresh(day, threshold, visits)))
  {
    if RefreshKey(day) !in w.box.keys && threshold.Some? {
      var c1, c2 := Outbox.Consume(RefreshKey(day)), Outbox.Consume(EscalationKey(day));
      var first := Outbox.Apply(w.box, c1);
      Outbox.RunOne(w.box, c1);
      if EscalationKey(day) !in first.keys {
        var tasks, both := Flagged(w.store.tasks, day), Outbox.Apply(first, c2);
        Outbox.RunMore(w.box, [c1], c2);
        EscalatedFollowsOutbox(tasks, both, day, visits);
        Outbox.RunAppend(w.box, [c1, c2], VisitTrace(tasks, both, day, visits));
      }
    }
  }

  lemma SummaryFollowsOutbox(w: World, day: nat, target: Option<UserId>, force: bool, mail: seq<Summary>)
    ensures SummaryJob(w, day, target, force, mail).0.box
         == Outbox.Run(w.box, BoxStep(w, Summarise(day, target, force, mail)))
  {
    var batch := target.None? || target.value == "";
    if !(force && batch) && !(target.None? && SummaryKey(day) in w.box.keys) {
      var key := Outbox.Consume(SummaryKey(day));
      var consumed := if target.None? then Outbox.Apply(w.box, key) else w.box;
      var assignees := if batch then |OpenAssignees(w.store.tasks)| else 1;
      MailFollowsOutbox((consumed, SummaryStats(assignees, 0, 0, target.Some?)), day, force, mail);
      if target.None? {
        Outbox.RunOne(w.box, key);
        Outbox.RunAppend(w.box, [key], MailTrace(day, force, mail));
      } else {
        assert [] + MailTrace(day, force, mail) == MailTrace(day, force, mail);
      }
    }
  }

  /**
   * The outbox of a whole run is that of a run of its own commands, so what holds of those holds
   * with the daily jobs in between.
   */
  lemma {:induction false} BoxFollowsOutbox(cfg: Settings, w: World, commands: seq<WorldCommand>)
    ensures RunWorld(cfg, w, commands).box == Outbox.Run(w.box, BoxTrace(cfg, w, commands))
  {
    if commands != [] {
      var front, c := commands[..|commands| - 1], commands[|commands| - 1];
      var mid := RunWorld(cfg, w, front);
      BoxFollowsOutbox(cfg, w, front);
      StepFollowsOutbox(cfg, mid, c);
      Outbox.RunAppend(w.box, BoxTrace(cfg, w, front), BoxStep(mid, c));
    }
  }

  /** In every reachable world each row has been sent again at most once. */
  lemma WorldResendsOnce(cfg: Settings, commands: seq<WorldCommand>)
    ensures Outbox.ResentOnce(RunWorld(cfg, START, commands).box)
  {
    BoxFollowsOutbox(cfg, START, commands);
    Outbox.EachRowResentAtMostOnce(BoxTrace(cfg, START, commands));
  }

  /** The key `k` is used for a forced send by the command. */
  predicate Forces(c: WorldCommand, k: string) {
    || (c.Notice? && c.forced && k == NOTIFY + c.about)
    || (c.Summarise? && c.force && exists s | s in c.mail :: k == SummaryNoticeKey(c.day, s.assignee, true))
  }

  /** All forced sends of the trace use one of the keys. */
  predicate ForcedWithin(trace: seq<Outbox.Command>, keys: set<string>) {
    forall c | c in trace && c.Deliver? && c.forced :: c.key in keys
  }

  lemma {:induction false} VisitsForceNothing(tasks: Rows, b: Outbox.Box, day: nat, visits: seq<Visit>)
    ensures forall c | c in VisitTrace(tasks, b, day, visits) :: c.Deliver? && !c.forced
  {
    if visits != [] { VisitsForceNothing(tasks, b, day, visits[..|visits| - 1]); }
  }

  lemma {:induction false} MailForces(day: nat, force: bool, mail: seq<Summary>)
    ensures forall c | c in MailTrace(day, force, mail) ::
              && c.Deliver? && c.forced == force
              && exists s | s in mail :: c.key == SummaryNoticeKey(day, s.assignee, force)
  {
    if mail != [] { MailForces(day, force, mail[..|mail| - 1]); }
  }

  /** What a refresh does to the outbox: it takes keys and sends notices that are not forced. */
  predicate KeyOrPlainSend(x: Outbox.Command) {
    x.Consume? || (x.Deliver? && !x.forced)
  }

  lemma RefreshStepShape(w: World, day: nat, threshold: Option<int>, visits: seq<Visit>)
    ensures forall x | x in BoxStep(w, Refresh(day, threshold, visits)) :: KeyOrPlainSend(x)
  {
    var first := Outbox.Apply(w.box, Outbox.Consume(RefreshKey(day)));
    var both := Outbox.Apply(first, Outbox.Consume(EscalationKey(day)));
    VisitsForceNothing(Flagged(w.store.tasks, day), both, day, visits);
  }

  lemma StepForces(w: World, c: WorldCommand, keys: set<string>)
    requires forall k | Forces(c, k) :: k in keys
    ensures ForcedWithin(BoxStep(w, c), keys)
  {
    match c
    case Refresh(day, threshold, visits) => RefreshStepShape(w, day, threshold, visits);
    case Summarise(day, _, force, mail) => MailForces(day, force, mail);
    case _ =>
  }

  lemma {:induction false} TraceForces(cfg: Settings, w: World, commands: seq<WorldCommand>, keys: set<string>)
    requires forall c, k | c in commands && Forces(c, k) :: k in keys
    ensures ForcedWithin(BoxTrace(cfg, w, commands), keys)
  {
    if commands != [] {
      var front := commands[..|commands| - 1];
      TraceForces(cfg, w, front, keys);
      StepForces(RunWorld(cfg, w, front), commands[|commands| - 1], keys);
    }
  }

  /** In every reachable world a key never used for a forced send has at most one delivery row. */
  lemma WorldDeliversOncePerKey(cfg: Settings, commands: seq<WorldCommand>, forcedKeys: set<string>)
    requires forall c, k | c in commands && Forces(c, k) :: k in forcedKeys
    ensures Outbox.OncePerKey(RunWorld(cfg, START, commands).box, forcedKeys)
  {
    BoxFollowsOutbox(cfg, START, commands);
    TraceForces(cfg, START, commands, forcedKeys);
    Outbox.OneDeliveryPerKey(BoxTrace(cfg, START, commands), forcedKeys);
  }

  /** Every retry run takes its rows from those pending in the world it finds. */
  ghost predicate WorldRetriesPending(cfg: Settings, commands: seq<WorldCommand>) {
    commands == []
    || (var front, c := commands[..|commands| - 1], commands[|commands| - 1];
        && WorldRetriesPending(cfg, front)
        && (c.Retry? ==> Outbox.TakesPending(RunWorld(cfg, START, front).box, c.picked)))
  }

  lemma SummaryStepShape(w: World, day: nat, target: Option<UserId>, force: bool, mail: seq<Summary>)
    ensures forall x | x in BoxStep(w, Summarise(day, target, force, mail)) :: x.Consume? || x.Deliver?
  {
    MailForces(day, force, mail);
  }

  lemma NoRetryInStep(w: World, c: WorldCommand)
    requires !c.Retry?
    ensures forall x | x in BoxStep(w, c) :: !x.RetryFailed?
  {
    match c
    case Refresh(day, threshold, visits) =>
      RefreshStepShape(w, day, threshold, visits);
      assert forall x | KeyOrPlainSend(x) :: !x.RetryFailed?;
    case Summarise(day, target, force, mail) => SummaryStepShape(w, day, target, force, mail);
    case _ =>
  }

  lemma {:induction false} TraceRetriesPending(cfg: Settings, commands: seq<WorldCommand>)
    requires WorldRetriesPending(cfg, commands)
    ensures Outbox.RetriesPending(BoxTrace(cfg, START, commands))
  {
    if commands != [] {
      var front, c := commands[..|commands| - 1], commands[|commands| - 1];
      var trace, w := BoxTrace(cfg, START, front), RunWorld(cfg, START, front);
      TraceRetriesPending(cfg, front);
      BoxFollowsOutbox(cfg, START, front);
      if c.Retry? {
        assert (trace + BoxStep(w, c))[..|trace|] == trace;
      } else {
        NoRetryInStep(w, c);
        Outbox.RetriesPendingExtends(trace, BoxStep(w, c));
      }
    }
  }

  /** In every reachable world no failed delivery is lost and no delivered one is sent again. */
  lemma WorldAccountsForFailures(cfg: Settings, commands: seq<WorldCommand>)
    requires WorldRetriesPending(cfg, commands)
    ensures Outbox.Accounted(RunWorld(cfg, START, commands).box)
  {
    BoxFollowsOutbox(cfg, START, commands);
    TraceRetriesPending(cfg, commands);
    Outbox.FailedDeliveriesAreAccountedFor(BoxTrace(cfg, START, commands));
  }

  // ----- the jobs as written -----

  ghost function WorldOf(db: Storage.Database, notifier: Outbox.NotificationService): World
    reads db, notifier
  {
    World(db.State(), notifier.State())
  }

  method ConsumeKey(notifier: Outbox.NotificationService, key: string) returns (isNew: bool)
    modifies notifier`keys
    ensures isNew == (key !in old(notifier.keys)) && notifier.keys == old(notifier.keys) + {key}
  {
    if key in notifier.keys {
      return false;
    }
    notifier.keys := notifier.keys + {key};
    isNew := true;
  }

  /** Refreshes the flags and notifies about overdue tasks in progress, once a day; all or nothing. */
  method RunOverdueRefreshAndNotify(db: Storage.Database, notifier: Outbox.NotificationService, day: nat,
                                    rules: Option<int>, sends: NoticeOutcomes)
    returns (result: JobResult, ghost visits: seq<Visit>)
    modifies db`tasks, notifier
    ensures (WorldOf(db, notifier), result) == OverdueJob(old(WorldOf(db, notifier)), day, rules, visits)
    ensures result.Finished? && result.stats.skipped == 0 && EscalationKey(day) !in old(notifier.keys) ==>
              Escalation(db.tasks, day, rules.value, visits)
    ensures WentAs(sends, visits)
  {
    visits := [];
    var tasks0, keys0 := db.tasks, notifier.keys;
    var isNew := ConsumeKey(notifier, RefreshKey(day));
    if !isNew {
      assert notifier.keys == keys0;
      return Finished(JobStats(0, 0, 0, 1)), [];
    }
    var changed := db.RefreshOverdueFlags(day);
    var rows := AllOverdueInProgress(db.tasks, day);
    if rules.None? {
      db.tasks := tasks0;
      notifier.keys := keys0;
      return RolledBack, [];
    }
    JobKeysDiffer(day, day, RefreshKey(day));
    isNew := ConsumeKey(notifier, EscalationKey(day));
    if !isNew {
      assert notifier.keys == keys0 + {RefreshKey(day)};
      return Finished(JobStats(changed, |rows|, 0, 0)), [];
    }
    var notifications;
    notifications, visits := Escalate(db.tasks, notifier, day, rules.value, rows, sends);
    result := Finished(JobStats(changed, |rows|, notifications, 0));
  }

  /** The notices about one overdue task; a failure is logged and ends only this task's turn. */
  method NotifyBoth(tasks: Rows, notifier: Outbox.NotificationService, day: nat, v: Visit, count: nat)
    returns (total: nat)
    requires v.id in tasks
    modifies notifier
    ensures (notifier.State(), total) == Visited(tasks, (old(notifier.State()), count), day, v)
  {
    total := count;
    var t := tasks[v.id];
    var first := notifier.DeliverHybrid(AssigneeNoticeKey(day, v.id), t.assignee, false, v.toAssignee);
    if !first.Raised? {
      var second := notifier.DeliverHybrid(CreatorNoticeKey(day, v.id), t.createdBy, false, v.toCreator);
      if !second.Raised? {
        total := total + 2;
      }
    }
  }

  /** Looking at one more task keeps the visits complete: it is visited when late, skipped when not. */
  lemma CoversOneMore(tasks: Rows, some: set<TaskId>, day: nat, threshold: int, visits: seq<Visit>, id: TaskId,
                      more: seq<Visit>)
    requires id in tasks && id !in some
    requires if Late(tasks[id], day, threshold) then |more| == 1 && more[0].id == id else more == []
    ensures Covers(tasks, some, day, threshold, visits) ==> Covers(tasks, some + {id}, day, threshold, visits + more)
  {
    var all := visits + more;
    if Covers(tasks, some, day, threshold, visits) && Late(tasks[id], day, threshold) {
      forall other | other in some + {id} && other in tasks && Late(tasks[other], day, threshold)
        ensures exists x :: 0 <= x < |all| && all[x].id == other
      {
        if other == id {
          assert all[|visits|].id == other;
        } else {
          var x :| 0 <= x < |visits| && visits[x].id == other;
          assert all[x].id == other;
        }
      }
    } else if !Late(tasks[id], day, threshold) {
      assert all == visits;
    }
  }

  lemma EscalatedMore(tasks: Rows, b: Outbox.Box, day: nat, visits: seq<Visit>, more: seq<Visit>)
    requires |more| <= 1
    ensures var r := Escalated(tasks, b, day, visits);
            Escalated(tasks, b, day, visits + more) == if more == [] then r else Visited(tasks, r, day, more[0])
  {
    if more == [] {
      assert visits + more == visits;
    } else {
      assert (visits + more)[..|visits|] == visits;
    }
  }

  lemma CoversRows(tasks: Rows, day: nat, threshold: int, visits: seq<Visit>)
    ensures Covers(tasks, AllOverdueInProgress(tasks, day), day, threshold, visits) ==>
              Escalation(tasks, day, threshold, visits)
  {
  }

  /** One row of the pass: nothing when it is not overdue by the threshold. */
  method EscalateOne(tasks: Rows, notifier: Outbox.NotificationService, day: nat, threshold: int, v: Visit,
                     count: nat)
    returns (total: nat, ghost more: seq<Visit>)
    requires v.id in tasks && OverdueInProgress(tasks[v.id], day)
    modifies notifier
    ensures more == if Late(tasks[v.id], day, threshold) then [v] else []
    ensures (notifier.State(), total)
         == if more == [] then (old(notifier.State()), count)
             else Visited(tasks, (old(notifier.State()), count), day, more[0])
  {
    total, more := count, [];
    if DaysOverdue(tasks[v.id].due, day) >= threshold {
      total := NotifyBoth(tasks, notifier, day, v, count);
      more := [v];
    }
  }

  lemma OneLess<T>(all: set<T>, left: set<T>, x: T)
    requires x in left && left <= all
    ensures all - (left - {x}) == (all - left) + {x}
  {
  }

  /** The pass has looked at the rows `some`, and made these visits. */
  ghost predicate Passed(tasks: Rows, start: Outbox.Box, day: nat, threshold: int, sends: NoticeOutcomes,
                         some: set<TaskId>, visits: seq<Visit>, reached: (Outbox.Box, nat)) {
    && reached == Escalated(tasks, start, day, visits)
    && Covers(tasks, some, day, threshold, visits) && WentAs(sends, visits)
  }

  lemma PassOneMore(tasks: Rows, start: Outbox.Box, day: nat, threshold: int, sends: NoticeOutcomes, some: set<TaskId>,
                    visits: seq<Visit>, before: (Outbox.Box, nat), id: TaskId, more: seq<Visit>)
    requires id in tasks && id !in some
    requires more == if Late(tasks[id], day, threshold) then [VisitOf(sends, id)] else []
    ensures Passed(tasks, start, day, threshold, sends, some, visits, before) ==>
              Passed(tasks, start, day, threshold, sends, some + {id}, visits + more,
                     if more == [] then before else Visited(tasks, before, day, VisitOf(sends, id)))
  {
    if Passed(tasks, start, day, threshold, sends, some, visits, before) {
      EscalatedMore(tasks, start, day, visits, more);
      CoversOneMore(tasks, some, day, threshold, visits, id, more);
    }
  }

  /** One pass over the overdue rows, in whatever order the query returned them. */
  method Escalate(tasks: Rows, notifier: Outbox.NotificationService, day: nat, threshold: int, rows: set<TaskId>,
                  sends: NoticeOutcomes)
    returns (notifications: nat, ghost visits: seq<Visit>)
    requires rows == AllOverdueInProgress(tasks, day)
    modifies notifier
    ensures (notifier.State(), notifications) == Escalated(tasks, old(notifier.State()), day, visits)
    ensures Escalation(tasks, day, threshold, visits) && WentAs(sends, visits)
    ensures visits == [] ==> notifications == 0 && notifier.State() == old(notifier.State())
  {
    notifications, visits := 0, [];
    ghost var start := notifier.State();
    var left := rows;
    while left != {}
      invariant left <= rows
      invariant Passed(tasks, start, day, threshold, sends, rows - left, visits, (notifier.State(), notifications))
      decreases left
    {
      var id :| id in left;
      ghost var done := rows - left;
      OneLess(rows, left, id);
      left := left - {id};
      ghost var more, before := [], (notifier.State(), notifications);
      notifications, more := EscalateOne(tasks, notifier, day, threshold, VisitOf(sends, id), notifications);
      PassOneMore(tasks, start, day, threshold, sends, done, visits, before, id, more);
      visits := visits + more;
    }
    assert rows - left == rows;
    CoversRows(tasks, day, threshold, visits);
  }

  lemma {:induction false} Earliest(tasks: Rows, ids: set<TaskId>) returns (id: TaskId)
    requires ids != {} && ids <= tasks.Keys
    ensures id in ids && forall other | other in ids :: tasks[id].due <= tasks[other].due
    decreases ids
  {
    id :| id in ids;
    if ids != {id} {
      var rest := Earliest(tasks, ids - {id});
      if tasks[rest].due < tasks[id].due { id := rest; }
    }
  }

  /** The user's open tasks by due date; the order among equal dates is the database's. */
  method ListOpenForAssignee(tasks: Rows, who: UserId) returns (ids: seq<TaskId>)
    ensures OpenList(tasks, who, ids)
  {
    ids := [];
    var left := OpenOf(tasks, who);
    while left != {}
      invariant left <= OpenOf(tasks, who)
      invariant forall id :: id in OpenOf(tasks, who) <==> id in left || id in ids
      invariant forall x | 0 <= x < |ids| :: ids[x] in tasks && ids[x] !in left
      invariant Distinct(ids)
      invariant forall x, y | 0 <= x < y < |ids| :: tasks[ids[x]].due <= tasks[ids[y]].due
      invariant forall x, id | 0 <= x < |ids| && id in left :: tasks[ids[x]].due <= tasks[id].due
      decreases left
    {
      ghost var first := Earliest(tasks, left);
      assert first in left && forall other | other in left :: tasks[first].due <= tasks[other].due;
      var id :| id in left && forall other | other in left :: tasks[id].due <= tasks[other].due;
      ids := ids + [id];
      left := left - {id};
    }
  }

  /** The summary of one user, unless that user has no open task. */
  method MailOne(tasks: Rows, notifier: Outbox.NotificationService, day: nat, who: UserId, force: bool,
                 attempt: Outbox.Attempt, stats: SummaryStats)
    returns (after: SummaryStats, ghost mail: seq<Summary>)
    modifies notifier
    ensures (notifier.State(), after) == AllMailed((old(notifier.State()), stats), day, force, mail)
    ensures Single(tasks, who, mail)
    ensures forall x | 0 <= x < |mail| :: mail[x].attempt == attempt
  {
    after, mail := stats, [];
    var ids := ListOpenForAssignee(tasks, who);
    if ids == [] {
      assert forall id | id in OpenOf(tasks, who) :: id in ids;
      return;
    }
    assert ids[0] in OpenOf(tasks, who);
    var sent := notifier.DeliverHybrid(SummaryNoticeKey(day, who, force), who, force, attempt);
    mail := [Summary(who, ids, attempt)];
    assert mail[..0] == [];
    match sent {
    case Duplicate => after := after.(skipped := after.skipped + 1);
    case Logged(_) => after := after.(sent := after.sent + 1);
    case Raised =>
    }
  }

  /** Sends the daily summaries: to everyone, once a day, or to one chosen user. */
  method RunDailySummary(db: Storage.Database, notifier: Outbox.NotificationService, day: nat,
                         target: Option<UserId>, force: bool, sends: UserId -> Outbox.Attempt)
    returns (result: SummaryResult, ghost mail: seq<Summary>)
    modifies notifier
    ensures (WorldOf(db, notifier), result) == SummaryJob(old(WorldOf(db, notifier)), day, target, force, mail)
    ensures result.Summarised? && (target.Some? || SummaryKey(day) !in old(notifier.keys)) ==>
              if target.Some? && target.value != "" then Single(db.tasks, target.value, mail) else Batch(db.tasks, mail)
    ensures MailWentAs(sends, mail)
  {
    mail := [];
    if force && (target.None? || target.value == "") {
      return ForceNeedsAssignee, [];
    }
    if target.None? {
      var isNew := ConsumeKey(notifier, SummaryKey(day));
      if !isNew {
        assert notifier.keys == old(notifier.keys);
        return Summarised(SummaryStats(0, 0, 1, false)), [];
      }
    }
    ghost var start := notifier.State();
    var stats;
    if target.None? || target.value == "" {
      stats, mail := MailAll(db.tasks, notifier, day, target.Some?, sends);
    } else {
      var who := target.value;
      stats, mail := MailOne(db.tasks, notifier, day, who, force, sends(who), SummaryStats(1, 0, 0, true));
    }
    result := Summarised(stats);
  }

  lemma MailedOne(acc: (Outbox.Box, SummaryStats), day: nat, force: bool, mail: seq<Summary>, one: seq<Summary>)
    requires |one| == 1
    ensures AllMailed(AllMailed(acc, day, force, mail), day, force, one) == AllMailed(acc, day, force, mail + one)
  {
    assert (mail + one)[..|mail|] == mail && one[..0] == [];
    assert (mail + one)[|mail|] == one[0];
  }

  method MailAll(tasks: Rows, notifier: Outbox.NotificationService, day: nat, testMode: bool,
                 sends: UserId -> Outbox.Attempt)
    returns (stats: SummaryStats, ghost mail: seq<Summary>)
    modifies notifier
    ensures (notifier.State(), stats)
         == AllMailed((old(notifier.State()), SummaryStats(|OpenAssignees(tasks)|, 0, 0, testMode)), day, false, mail)
    ensures Batch(tasks, mail) && MailWentAs(sends, mail)
  {
    var left := OpenAssignees(tasks);
    stats, mail := SummaryStats(|left|, 0, 0, testMode), [];
    ghost var start := (notifier.State(), stats);
    ghost var done: set<UserId> := {};
    while left != {}
      invariant left <= OpenAssignees(tasks) && done == OpenAssignees(tasks) - left
      invariant (notifier.State(), stats) == AllMailed(start, day, false, mail)
      invariant MailTo(tasks, done, mail) && MailWentAs(sends, mail)
      decreases left
    {
      var who :| who in left;
      left := left - {who};
      ghost var one;
      stats, one := MailOne(tasks, notifier, day, who, false, sends(who), stats);
      AssigneeHasList(tasks, who, one);
      assert one == [one[0]];
      MailGrows(tasks, done, mail, one[0]);
      MailedOne(start, day, false, mail, one);
      mail := mail + one;
      done := done + {who};
    }
    assert done == OpenAssignees(tasks);
  }

  /** Every assignee of a task that is not terminal has a list to be sent. */
  lemma AssigneeHasList(tasks: Rows, who: UserId, one: seq<Summary>)
    requires who in OpenAssignees(tasks) && Single(tasks, who, one)
    ensures |one| == 1 && one[0].assignee == who && one[0].tasks != [] && OpenList(tasks, who, one[0].tasks)
  {
    var id :| id in tasks && tasks[id].status !in {Verified, Cancelled} && tasks[id].assignee == who;
    OpenIsNotTerminal(tasks[id].status);
    assert id in OpenOf(tasks, who);
    assert id in one[0].tasks;
  }

  lemma MailGrows(tasks: Rows, done: set<UserId>, mail: seq<Summary>, s: Summary)
    requires MailTo(tasks, done, mail) && s.assignee !in done && s.tasks != [] && OpenList(tasks, s.assignee, s.tasks)
    ensures MailTo(tasks, done + {s.assignee}, mail + [s])
  {
    var all := mail + [s];
    forall other | other in done + {s.assignee}
      ensures exists x :: 0 <= x < |all| && all[x].assignee == other
    {
      if other == s.assignee {
        assert all[|mail|].assignee == other;
      } else {
        var x :| 0 <= x < |mail| && mail[x].assignee == other;
        assert all[x].assignee == other;
      }
    }
  }
}
