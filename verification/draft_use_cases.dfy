/** Protocols of several transactions, with other users' transactions running in between. */
module DraftUseCases {
  import opened Wrappers
  import opened Tasks
  import opened TaskIds
  import opened Ledger
  import opened LedgerInvariant
  import opened LedgerProperties
  import opened Storage

  /** Transaction number `i` of a trace announced this task for the draft. */
  predicate AnnouncedBy(cfg: Settings, s: Store, trace: seq<Command>, draftId: string, id: TaskId, i: nat) {
    i < |trace| && Answers(trace[i], draftId) && ReplyAt(cfg, s, trace, i) == TaskCreated(id)
  }

  /** A trace contains the transaction that announced this task for the draft. */
  ghost predicate Announced(cfg: Settings, s: Store, trace: seq<Command>, draftId: string, id: TaskId) {
    exists i: nat :: AnnouncedBy(cfg, s, trace, draftId, id, i)
  }

  lemma OneMore(cfg: Settings, s: Store, trace: seq<Command>, c: Command)
    ensures Run(cfg, s, trace + [c]) == Apply(cfg, Run(cfg, s, trace), c).0
  {
    assert (trace + [c])[..|trace|] == trace;
  }

  predicate OnDraft(c: Command) {
    c.Stash? || c.Peek? || c.CompletedId? || c.Claim? || c.Discard?
  }

  lemma OneDraftCommand(cfg: Settings, s: Store, trace: seq<Command>, c: Command)
    requires OnDraft(c)
    ensures Run(cfg, s, trace + [c]) == ApplyDraft(Run(cfg, s, trace), c).0
  {
    OneMore(cfg, s, trace, c);
    ApplyOnDraft(cfg, Run(cfg, s, trace), c);
  }

  lemma ApplyOnDraft(cfg: Settings, s: Store, c: Command)
    requires OnDraft(c)
    ensures Apply(cfg, s, c) == ApplyDraft(s, c)
  {
  }

  // ----- confirming a draft -----

  datatype Confirmation =
    | NotRequester
    | Expired
    | NotPermitted
    | Confirmed(taskId: TaskId)
    | Failed

  /** Times and faults the environment chooses during one confirmation, and what runs in between. */
  datatype ConfirmEnv = ConfirmEnv(
    peekedAt: int,
    claimedAt: int,
    year: nat,
    crashes: bool,
    permitted: bool,
    afterPeek: seq<Command>,
    afterLookup: seq<Command>)

  function PeekOf(draftId: string, actor: UserId, env: ConfirmEnv): Command {
    Peek(draftId, actor, env.peekedAt)
  }

  function ClaimOf(draftId: string, actor: UserId, env: ConfirmEnv): Command {
    Claim(draftId, actor, env.claimedAt, env.year, env.crashes)
  }

  /** The store in which a confirmation that has peeked makes its next transaction. */
  function AfterPeek(cfg: Settings, s: Store, draftId: string, actor: UserId, env: ConfirmEnv): Store {
    Run(cfg, s, [PeekOf(draftId, actor, env)] + env.afterPeek)
  }

  /** How a confirmation goes, with the reply of its last transaction. */
  datatype Course = Refused | Finished(looked: Reply) | Unpermitted | Claimed(claimed: Reply)

  /** The course after the peek, in the store it then meets. */
  function NextCourse(peeked: Ownership, mid: Store, draftId: string, actor: UserId, env: ConfirmEnv): Course {
    match peeked
    case Foreign => Refused
    case Gone => Finished(Looked(mid.drafts, draftId, actor))
    case Live =>
      if env.permitted then Claimed(ApplyClaim(mid, draftId, actor, env.claimedAt, env.year, env.crashes).1)
      else Unpermitted
  }

  /** The course taken from the drafts the peek met and the store `mid` met after it. */
  function CourseOf(met: map<string, Draft>, mid: Store, draftId: string, actor: UserId, env: ConfirmEnv): Course {
    NextCourse(Owned(met, draftId, actor, env.peekedAt), mid, draftId, actor, env)
  }

  /** The transactions of a course after the peek, others included. */
  function StepsOf(course: Course, draftId: string, actor: UserId, env: ConfirmEnv): seq<Command> {
    match course
    case Refused => []
    case Finished(looked) => [CompletedId(draftId, actor)] + if looked.TaskCreated? then env.afterLookup else []
    case Unpermitted => []
    case Claimed(_) => [ClaimOf(draftId, actor, env)]
  }

  /** The transactions of a confirmation and, in between, of the others. */
  function TraceOf(course: Course, draftId: string, actor: UserId, env: ConfirmEnv): seq<Command> {
    if course.Refused? then [PeekOf(draftId, actor, env)]
    else [PeekOf(draftId, actor, env)] + env.afterPeek + StepsOf(course, draftId, actor, env)
  }

  /** What the actor is told; `tasks` are those stored in the end. */
  function AnswerTo(course: Course, tasks: map<TaskId, Task>): Confirmation {
    match course
    case Refused => NotRequester
    case Unpermitted => NotPermitted
    case Finished(looked) =>
      if looked == Denied then NotRequester
      else if looked.TaskCreated? && looked.taskId in tasks then Confirmed(looked.taskId)
      else Expired
    case Claimed(claimed) =>
      match claimed
      case Denied => NotRequester
      case TaskCreated(id) => Confirmed(id)
      case Crashed => Failed
      case _ => Expired
  }

  /** The draft can be, or has been, confirmed by this actor at this time. */
  predicate Confirmable(drafts: map<string, Draft>, draftId: string, actor: UserId, now: int) {
    && draftId in drafts && drafts[draftId].requester == actor
    && (drafts[draftId].state == Consumed || (drafts[draftId].state == Active && now < drafts[draftId].expiresAt))
  }

  /**
   * The transactions and the answer are those of the course the replies call for. Whatever runs in
   * between, only the task that the draft has become is announced. Undisturbed and without faults
   * it succeeds exactly when the draft is the actor's and is live or consumed.
   */
  method Confirm(db: Database, draftId: string, actor: UserId, env: ConfirmEnv)
    returns (result: Confirmation, ghost trace: seq<Command>)
    modifies db
    ensures var mid := AfterPeek(db.cfg, old(db.State()), draftId, actor, env);
            var course := CourseOf(old(db.drafts), mid, draftId, actor, env);
            trace == TraceOf(course, draftId, actor, env) && result == AnswerTo(course, db.State().tasks)
    ensures db.State() == Run(db.cfg, old(db.State()), trace)
    ensures result.Confirmed? ==>
              && Announced(db.cfg, old(db.State()), trace, draftId, result.taskId)
              && Became(db.State(), draftId, result.taskId) && result.taskId in db.State().tasks
    ensures Structured(old(db.State())) && Undisturbed(env) ==>
              (result.Confirmed? <==> Confirmable(old(db.State().drafts), draftId, actor, env.claimedAt))
  {
    ghost var start := db.State();
    ghost var mid := AfterPeek(db.cfg, start, draftId, actor, env);
    ghost var course := CourseOf(start.drafts, mid, draftId, actor, env);
    result, trace := Proceed(db, draftId, actor, env, mid);
    ConfirmedMeans(db.cfg, start, mid, draftId, actor, env, course, trace, result);
    UndisturbedSucceeds(db.cfg, start, mid, draftId, actor, env, course);
  }

  predicate Undisturbed(env: ConfirmEnv) {
    env.afterPeek == [] && env.permitted && !env.crashes && env.peekedAt <= env.claimedAt
  }

  /** Peek, then go on unless the draft is another user's. */
  method Proceed(db: Database, draftId: string, actor: UserId, env: ConfirmEnv, ghost mid: Store)
    returns (result: Confirmation, ghost trace: seq<Command>)
    requires mid == AfterPeek(db.cfg, db.State(), draftId, actor, env)
    modifies db
    ensures var course := CourseOf(old(db.drafts), mid, draftId, actor, env);
            trace == TraceOf(course, draftId, actor, env) && result == AnswerTo(course, db.State().tasks)
    ensures db.State() == Run(db.cfg, old(db.State()), trace)
  {
    ghost var start := db.State();
    var peeked := PeekFirst(db, draftId, actor, env);
    trace := [PeekOf(draftId, actor, env)];
    if peeked == Foreign {
      return NotRequester, trace;
    }
    result, trace := Continue(db, peeked, draftId, actor, env, start, trace + env.afterPeek, mid);
  }

  /** Look up the task of a draft that is no longer live, or claim the draft. */
  method Continue(db: Database, peeked: Ownership, draftId: string, actor: UserId, env: ConfirmEnv,
                  ghost start: Store, ghost waited: seq<Command>, ghost mid: Store)
    returns (result: Confirmation, ghost trace: seq<Command>)
    requires peeked != Foreign && db.State() == mid == Run(db.cfg, start, waited)
    modifies db
    ensures var course := NextCourse(peeked, mid, draftId, actor, env);
            trace == waited + StepsOf(course, draftId, actor, env) && result == AnswerTo(course, db.State().tasks)
    ensures db.State() == Run(db.cfg, start, trace)
  {
    ghost var rest;
    if peeked == Gone {
      result, rest := ConfirmFinished(db, draftId, actor, env);
    } else {
      result, rest := ConfirmLive(db, draftId, actor, env);
    }
    RunAppend(db.cfg, start, waited, rest);
    trace := waited + rest;
  }

  /** The peek and, unless the draft is another user's, what runs before the next step. */
  method PeekFirst(db: Database, draftId: string, actor: UserId, env: ConfirmEnv) returns (peeked: Ownership)
    modifies db
    ensures peeked == Owned(old(db.drafts), draftId, actor, env.peekedAt)
    ensures db.State() == if peeked == Foreign then Run(db.cfg, old(db.State()), [PeekOf(draftId, actor, env)])
                          else AfterPeek(db.cfg, old(db.State()), draftId, actor, env)
  {
    ghost var start, peek := db.State(), PeekOf(draftId, actor, env);
    assert [peek] == [] + [peek];
    OneDraftCommand(db.cfg, start, [], peek);
    PeekReply(start, draftId, actor, env.peekedAt);
    var reply := db.PeekDraft(draftId, actor, env.peekedAt);
    if reply == Denied {
      return Foreign;
    }
    db.Interleave(env.afterPeek);
    RunAppend(db.cfg, start, [peek], env.afterPeek);
    peeked := if reply == DraftGone then Gone else Live;
  }

  /** The way through a live draft: claim it, unless the assignment is not permitted. */
  method ConfirmLive(db: Database, draftId: string, actor: UserId, env: ConfirmEnv)
    returns (result: Confirmation, ghost trace: seq<Command>)
    modifies db
    ensures var claimed := ApplyClaim(old(db.State()), draftId, actor, env.claimedAt, env.year, env.crashes).1;
            && trace == (if env.permitted then [ClaimOf(draftId, actor, env)] else [])
            && result == AnswerTo(if env.permitted then Claimed(claimed) else Unpermitted, db.State().tasks)
    ensures db.State() == Run(db.cfg, old(db.State()), trace)
  {
    if !env.permitted {
      return NotPermitted, [];
    }
    ghost var claim := ClaimOf(draftId, actor, env);
    OneDraftCommand(db.cfg, db.State(), [], claim);
    assert [claim] == [] + [claim];
    trace := [claim];
    var claimed := db.ClaimAndCreate(draftId, actor, env.claimedAt, env.year, env.crashes);
    match claimed {
      case Denied => result := NotRequester;
      case TaskCreated(id) => result := Confirmed(id);
      case Crashed => result := Failed;
      case _ => result := Expired;
    }
  }

  /** The way through a draft that is no longer live: look up its task, then read that task. */
  method ConfirmFinished(db: Database, draftId: string, actor: UserId, env: ConfirmEnv)
    returns (result: Confirmation, ghost trace: seq<Command>)
    modifies db
    ensures var course := Finished(Looked(old(db.drafts), draftId, actor));
            trace == StepsOf(course, draftId, actor, env) && result == AnswerTo(course, db.State().tasks)
    ensures db.State() == Run(db.cfg, old(db.State()), trace)
  {
    ghost var start := db.State();
    trace := [CompletedId(draftId, actor)];
    assert trace == [] + trace;
    OneDraftCommand(db.cfg, start, [], trace[0]);
    var completed := db.CompletedDraftTaskId(draftId, actor);
    if completed == Denied {
      return NotRequester, trace;
    }
    if !completed.TaskCreated? {
      return Expired, trace;
    }
    db.Interleave(env.afterLookup);
    RunAppend(db.cfg, start, trace, env.afterLookup);
    trace := trace + env.afterLookup;
    if completed.taskId in db.tasks {
      result := Confirmed(completed.taskId);
    } else {
      result := Expired;
    }
  }

  // ----- what a confirmation announces -----

  lemma AnnouncedAt(cfg: Settings, s: Store, mid: Store, before: seq<Command>, c: Command, after: seq<Command>,
                    trace: seq<Command>, d: string, id: TaskId)
    requires mid == Run(cfg, s, before) && trace == before + ([c] + after)
    requires Answers(c, d) && ApplyDraft(mid, c).1 == TaskCreated(id)
    ensures Announced(cfg, s, trace, d, id) && Became(Run(cfg, s, trace), d, id)
  {
    assert trace[..|before|] == before && trace[|before|] == c;
    assert AnnouncedBy(cfg, s, trace, d, id, |before|);
    CreatedReplyHolds(cfg, s, trace, d, |before|, |trace|);
    assert trace[..|trace|] == trace;
  }

  lemma ClaimedTaskExists(s: Store, c: Command, id: TaskId)
    requires c.Claim? && ApplyDraft(s, c).1 == TaskCreated(id)
    ensures id in ApplyDraft(s, c).0.tasks
  {
  }

  lemma ClaimMeans(cfg: Settings, s: Store, mid: Store, waited: seq<Command>, c: Command, trace: seq<Command>,
                   id: TaskId)
    requires mid == Run(cfg, s, waited) && c.Claim? && trace == waited + [c]
    requires ApplyDraft(mid, c).1 == TaskCreated(id)
    ensures Announced(cfg, s, trace, c.draftId, id)
    ensures Became(Run(cfg, s, trace), c.draftId, id) && id in Run(cfg, s, trace).tasks
  {
    assert trace == waited + ([c] + []);
    AnnouncedAt(cfg, s, mid, waited, c, [], trace, c.draftId, id);
    ClaimedTaskExists(mid, c, id);
    OneDraftCommand(cfg, s, waited, c);
  }

  lemma FinishedMeans(cfg: Settings, s: Store, mid: Store, waited: seq<Command>, draftId: string, actor: UserId,
                      after: seq<Command>, trace: seq<Command>, looked: Reply)
    requires mid == Run(cfg, s, waited) && looked == Looked(mid.drafts, draftId, actor)
    requires looked.TaskCreated? ==> trace == waited + ([CompletedId(draftId, actor)] + after)
    ensures looked.TaskCreated? ==>
              Announced(cfg, s, trace, draftId, looked.taskId) && Became(Run(cfg, s, trace), draftId, looked.taskId)
  {
    if looked.TaskCreated? {
      AnnouncedAt(cfg, s, mid, waited, CompletedId(draftId, actor), after, trace, draftId, looked.taskId);
    }
  }

  /** A successful confirmation contains the transaction that announced its task, and what follows keeps that. */
  lemma ConfirmedMeans(cfg: Settings, s: Store, mid: Store, draftId: string, actor: UserId, env: ConfirmEnv,
                       course: Course, trace: seq<Command>, result: Confirmation)
    requires mid == AfterPeek(cfg, s, draftId, actor, env)
    requires course == CourseOf(s.drafts, mid, draftId, actor, env) && trace == TraceOf(course, draftId, actor, env)
    requires result == AnswerTo(course, Run(cfg, s, trace).tasks)
    ensures result.Confirmed? ==> Announced(cfg, s, trace, draftId, result.taskId)
    ensures result.Confirmed? ==> Became(Run(cfg, s, trace), draftId, result.taskId)
    ensures result.Confirmed? ==> result.taskId in Run(cfg, s, trace).tasks
  {
    var waited := [PeekOf(draftId, actor, env)] + env.afterPeek;
    if course.Finished? {
      FinishedMeans(cfg, s, mid, waited, draftId, actor, env.afterLookup, trace, course.looked);
    } else if result.Confirmed? {
      ClaimMeans(cfg, s, mid, waited, ClaimOf(draftId, actor, env), trace, result.taskId);
    }
  }

  // ----- when confirming succeeds -----

  lemma PeekReply(s: Store, draftId: string, actor: UserId, now: int)
    ensures var (r, owned) := (ApplyDraft(s, Peek(draftId, actor, now)), Owned(s.drafts, draftId, actor, now));
            && (r.1 == Denied <==> owned == Foreign)
            && (r.1 == DraftGone <==> owned == Gone)
            && (r.1.DraftShown? <==> owned == Live)
            && r.0.drafts == if owned == Gone then Swept(s.drafts, draftId, now) else s.drafts
  {
  }

  predicate ConsumedBy(drafts: map<string, Draft>, draftId: string, actor: UserId) {
    draftId in drafts && drafts[draftId].requester == actor && drafts[draftId].state == Consumed
  }

  lemma LookupReply(s: Store, d: string, actor: UserId)
    requires Structured(s)
    ensures Looked(s.drafts, d, actor).TaskCreated? <==> ConsumedBy(s.drafts, d, actor)
  {
    if d in s.drafts { assert DraftMatched(s, d); }
  }

  lemma ClaimReply(s: Store, draftId: string, actor: UserId, env: ConfirmEnv)
    requires Structured(s)
    ensures ApplyClaim(s, draftId, actor, env.claimedAt, env.year, env.crashes).1.TaskCreated?
       <==> !env.crashes && Owned(s.drafts, draftId, actor, env.claimedAt) == Live
  {
    ClaimKeepsStructure(s, draftId, actor, env.claimedAt, env.year, env.crashes);
  }

  /** In a reachable store the task a draft has become exists. */
  lemma BecameExists(s: Store, d: string, id: TaskId)
    requires Structured(s)
    ensures Became(s, d, id) ==> id in s.tasks
  {
    if d in s.drafts { assert DraftMatched(s, d); }
  }

  /** The task found by a lookup is still there at the end. */
  lemma LookedUpExists(cfg: Settings, s: Store, mid: Store, waited: seq<Command>, look: Command, after: seq<Command>,
                       id: TaskId)
    requires Structured(s) && mid == Run(cfg, s, waited) && look.CompletedId?
    requires Looked(mid.drafts, look.draftId, look.actor) == TaskCreated(id)
    ensures id in Run(cfg, s, waited + ([look] + after)).tasks
  {
    var trace := waited + ([look] + after);
    AnnouncedAt(cfg, s, mid, waited, look, after, trace, look.draftId, id);
    RunKeepsStructure(cfg, s, trace);
    BecameExists(Run(cfg, s, trace), look.draftId, id);
  }

  /** The answer is positive exactly when the last reply named a task. */
  lemma ConfirmedIffTaskNamed(cfg: Settings, s: Store, mid: Store, draftId: string, actor: UserId, env: ConfirmEnv,
                              course: Course)
    requires Structured(s) && mid == AfterPeek(cfg, s, draftId, actor, env)
    requires course.Finished? ==> course.looked == Looked(mid.drafts, draftId, actor)
    ensures AnswerTo(course, Run(cfg, s, TraceOf(course, draftId, actor, env)).tasks).Confirmed?
       <==> (course.Finished? && course.looked.TaskCreated?) || (course.Claimed? && course.claimed.TaskCreated?)
  {
    if course.Finished? && course.looked.TaskCreated? {
      LookedUpExists(cfg, s, mid, [PeekOf(draftId, actor, env)] + env.afterPeek,
                     CompletedId(draftId, actor), env.afterLookup,
                     course.looked.taskId);
    }
  }

  /**
   * Exactly when a confirmation succeeds: it saw the draft live, was permitted and met it live
   * again when claiming, or it saw it ended and met it consumed.
   */
  lemma ConfirmSucceedsIff(cfg: Settings, s: Store, mid: Store, draftId: string, actor: UserId, env: ConfirmEnv,
                           course: Course)
    requires Structured(s) && mid == AfterPeek(cfg, s, draftId, actor, env)
    requires course == CourseOf(s.drafts, mid, draftId, actor, env)
    ensures AnswerTo(course, Run(cfg, s, TraceOf(course, draftId, actor, env)).tasks).Confirmed?
            <==> match Owned(s.drafts, draftId, actor, env.peekedAt)
                 case Foreign => false
                 case Live => env.permitted && !env.crashes && Owned(mid.drafts, draftId, actor, env.claimedAt) == Live
                 case Gone => ConsumedBy(mid.drafts, draftId, actor)
  {
    RunKeepsStructure(cfg, s, [PeekOf(draftId, actor, env)] + env.afterPeek);
    ConfirmedIffTaskNamed(cfg, s, mid, draftId, actor, env, course);
    LookupReply(mid, draftId, actor);
    ClaimReply(mid, draftId, actor, env);
  }

  /** The answer, told from who owned the draft at the peek and at the step after it. */
  lemma ConfirmAnswers(cfg: Settings, s: Store, mid: Store, draftId: string, actor: UserId, env: ConfirmEnv,
                       course: Course, answer: Confirmation)
    requires Structured(s) && mid == AfterPeek(cfg, s, draftId, actor, env)
    requires course == CourseOf(s.drafts, mid, draftId, actor, env)
    requires answer == AnswerTo(course, Run(cfg, s, TraceOf(course, draftId, actor, env)).tasks)
    ensures match Owned(s.drafts, draftId, actor, env.peekedAt)
            case Foreign => answer == NotRequester
            case Live =>
              if !env.permitted then answer == NotPermitted
              else (match Owned(mid.drafts, draftId, actor, env.claimedAt)
                    case Foreign => answer == NotRequester
                    case Gone => answer == Expired
                    case Live => if env.crashes then answer == Failed else answer.Confirmed?)
            case Gone =>
              if draftId in mid.drafts && mid.drafts[draftId].requester != actor then answer == NotRequester
              else if ConsumedBy(mid.drafts, draftId, actor) then answer.Confirmed?
              else answer == Expired
  {
    ConfirmSucceedsIff(cfg, s, mid, draftId, actor, env, course);
    RunKeepsStructure(cfg, s, [PeekOf(draftId, actor, env)] + env.afterPeek);
    ConfirmedIffTaskNamed(cfg, s, mid, draftId, actor, env, course);
  }

  lemma UndisturbedMid(cfg: Settings, s: Store, draftId: string, actor: UserId, env: ConfirmEnv)
    requires env.afterPeek == []
    ensures AfterPeek(cfg, s, draftId, actor, env).drafts
         == if Owned(s.drafts, draftId, actor, env.peekedAt) == Gone
             then Swept(s.drafts, draftId, env.peekedAt) else s.drafts
  {
    var peek := PeekOf(draftId, actor, env);
    assert [peek] + env.afterPeek == [] + [peek];
    OneDraftCommand(cfg, s, [], peek);
    PeekReply(s, draftId, actor, env.peekedAt);
  }

  lemma UndisturbedSucceeds(cfg: Settings, s: Store, mid: Store, draftId: string, actor: UserId, env: ConfirmEnv,
                            course: Course)
    requires mid == AfterPeek(cfg, s, draftId, actor, env) && course == CourseOf(s.drafts, mid, draftId, actor, env)
    ensures Structured(s) && Undisturbed(env) ==>
              (AnswerTo(course, Run(cfg, s, TraceOf(course, draftId, actor, env)).tasks).Confirmed?
               <==> Confirmable(s.drafts, draftId, actor, env.claimedAt))
  {
    if Structured(s) && Undisturbed(env) {
      ConfirmSucceedsIff(cfg, s, mid, draftId, actor, env, course);
      UndisturbedMid(cfg, s, draftId, actor, env);
      UndisturbedOwner(s.drafts, mid.drafts, draftId, actor, env);
    }
  }

  lemma UndisturbedOwner(met: map<string, Draft>, mid: map<string, Draft>, draftId: string, actor: UserId,
                         env: ConfirmEnv)
    requires Undisturbed(env)
    requires mid == if Owned(met, draftId, actor, env.peekedAt) == Gone then Swept(met, draftId, env.peekedAt) else met
    ensures Confirmable(met, draftId, actor, env.claimedAt)
       <==> match Owned(met, draftId, actor, env.peekedAt)
            case Foreign => false
            case Live => Owned(mid, draftId, actor, env.claimedAt) == Live
            case Gone => ConsumedBy(mid, draftId, actor)
  {
  }

  /**
   * Two confirmations of one draft at any points of any history announce the same task:
   * `first` ran from `s` and `second` ran from a store some transactions later.
   */
  lemma ConfirmationsAgree(cfg: Settings, s: Store, first: seq<Command>, between: seq<Command>, second: seq<Command>,
                           draftId: string, a: TaskId, b: TaskId)
    requires Announced(cfg, s, first, draftId, a)
    requires Announced(cfg, Run(cfg, Run(cfg, s, first), between), second, draftId, b)
    ensures a == b
  {
    var i: nat :| AnnouncedBy(cfg, s, first, draftId, a, i);
    CreatedReplyHolds(cfg, s, first, draftId, i, |first|);
    assert first[..|first|] == first;
    var mid := Run(cfg, s, first);
    RunKeepsEnded(cfg, mid, between, draftId);
    var later := Run(cfg, mid, between);
    var j: nat :| AnnouncedBy(cfg, later, second, draftId, b, j);
    RunKeepsEnded(cfg, later, second[..j], draftId);
    AnswerOfConsumed(cfg, Run(cfg, later, second[..j]), second[j], draftId, a);
  }

  // ----- preparing a draft in a conversation -----

  datatype Preparation = Prepared | Superseded | Raised

  /** Clock readings during one preparation, and what runs in between. */
  datatype PrepareEnv = PrepareEnv(
    recalledAt: int,
    stashedAt: int,
    writtenAt: int,
    discardedAt: int,
    beforeStash: seq<Command>,
    beforeWrite: seq<Command>,
    beforeDiscard: seq<Command>)

  /** What is to be prepared: for which conversation, under which id, at which revision. */
  datatype Request = Request(chat: ChatKey, draftId: string, proposal: Proposal, revision: Option<int>)

  function ReviewForm(draftId: string): Form {
    Form(Some(ReviewDraft), map[], [], draftId)
  }

  function RecallOf(q: Request, env: PrepareEnv): Command { GetPending(q.chat, env.recalledAt) }

  function StashOf(q: Request, env: PrepareEnv): Command {
    Stash(q.draftId, q.chat.actor, q.proposal, env.stashedAt)
  }

  function WriteOf(q: Request, env: PrepareEnv): Command {
    SetPending(q.chat, ReviewForm(q.draftId), q.revision, env.writtenAt)
  }

  function DiscardOf(q: Request, draftId: string, env: PrepareEnv): Command {
    Discard(draftId, q.chat.actor, env.discardedAt)
  }

  function UpToStash(q: Request, env: PrepareEnv): seq<Command> {
    [RecallOf(q, env)] + env.beforeStash + [StashOf(q, env)]
  }

  /** Everything up to the guarded write, and the write. */
  function UpToWrite(q: Request, env: PrepareEnv): seq<Command> {
    UpToStash(q, env) + env.beforeWrite + [WriteOf(q, env)]
  }

  /** The transactions when the draft was stashed, given the draft to be discarded in the end. */
  function PrepareTrace(q: Request, env: PrepareEnv, discarded: Option<string>): seq<Command> {
    UpToWrite(q, env)
    + (match discarded case None => [] case Some(d) => env.beforeDiscard + [DiscardOf(q, d, env)])
  }

  /** The draft a row under review points at. */
  function Reviewed(previous: Option<Chat>): Option<string> {
    if previous.Some? && previous.value.form.operation == Some(ReviewDraft) && previous.value.form.reference != "" then
      Some(previous.value.form.reference)
    else
      None
  }

  /** The conversation has a row whose time is not up. */
  predicate RowShown(cfg: Settings, chats: map<ChatKey, Chat>, k: ChatKey, now: int) {
    cfg.coordinatorEnabled && k in chats && (chats[k].expiresAt.Some? ==> now <= chats[k].expiresAt.value)
  }

  /** The guarded write, made in this store, is refused. */
  predicate Loses(cfg: Settings, at: Store, q: Request, env: PrepareEnv) {
    q.revision.Some? && cfg.coordinatorEnabled && ApplyChat(cfg, at, WriteOf(q, env)).1 == Revision(None)
  }

  predicate Ended(s: Store, draftId: string) {
    draftId in s.drafts ==> s.drafts[draftId].state != Active
  }

  /** A draft of this requester that only a claim could have consumed. */
  predicate OwnUnclaimed(s: Store, d: string, requester: UserId) {
    d in s.drafts && s.drafts[d].requester == requester && s.drafts[d].state != Consumed
  }

  ghost predicate NoClaims(commands: seq<Command>, d: string) {
    forall c | c in commands :: !Claims(c, d)
  }

  /** A stored draft keeps its requester, and without a claim of it is not consumed. */
  lemma {:induction false} RunEvolves(cfg: Settings, s: Store, commands: seq<Command>, d: string)
    requires d in s.drafts
    ensures d in Run(cfg, s, commands).drafts && Run(cfg, s, commands).drafts[d].requester == s.drafts[d].requester
    ensures NoClaims(commands, d) && s.drafts[d].state != Consumed ==> Run(cfg, s, commands).drafts[d].state != Consumed
  {
    if commands != [] {
      var front, c := commands[..|commands| - 1], commands[|commands| - 1];
      assert c in commands && forall x | x in front :: x in commands;
      RunEvolves(cfg, s, front, d);
      ApplyEvolves(cfg, Run(cfg, s, front), c, d);
    }
  }

  lemma OneChatCommand(cfg: Settings, s: Store, trace: seq<Command>, c: Command)
    requires c.BeginEvent? || c.SetPending? || c.GetPending? || c.ClearPending?
    ensures Run(cfg, s, trace + [c]) == ApplyChat(cfg, Run(cfg, s, trace), c).0
  {
    OneMore(cfg, s, trace, c);
  }

  lemma LosesIffMovedOn(cfg: Settings, s: Store, q: Request, env: PrepareEnv)
    ensures Loses(cfg, s, q, env)
       <==> q.revision.Some? && cfg.coordinatorEnabled && ChatOf(s, q.chat).revision != q.revision.value
  {
  }

  lemma ReviewWritten(cfg: Settings, s: Store, q: Request, env: PrepareEnv)
    requires cfg.coordinatorEnabled && !Loses(cfg, s, q, env)
    ensures var row := ChatOf(ApplyChat(cfg, s, WriteOf(q, env)).0, q.chat);
            row == ChatOf(s, q.chat).(form := ReviewForm(q.draftId), expiresAt := Some(env.writtenAt + PENDING_TTL))
  {
    LosesIffMovedOn(cfg, s, q, env);
  }

  /** The guarded write that makes the new draft the one under review; tells whether it lost the race. */
  method WriteReview(db: Database, q: Request, env: PrepareEnv) returns (lost: bool)
    modifies db
    ensures db.State() == ApplyChat(db.cfg, old(db.State()), WriteOf(q, env)).0
    ensures lost == Loses(db.cfg, old(db.State()), q, env)
    ensures lost <==>
              && q.revision.Some? && db.cfg.coordinatorEnabled
              && ChatOf(old(db.State()), q.chat).revision != q.revision.value
  {
    LosesIffMovedOn(db.cfg, db.State(), q, env);
    var stored := db.SetPendingForm(q.chat, ReviewForm(q.draftId), q.revision, env.writtenAt);
    lost := q.revision.Some? && stored == Revision(None) && db.cfg.coordinatorEnabled;
  }

  lemma DiscardReply(s: Store, d: string, actor: UserId, now: int)
    ensures var r := ApplyDraft(s, Discard(d, actor, now));
            && r.0.chats == s.chats
            && (r.1 == Denied <==> Owned(s.drafts, d, actor, now) == Foreign)
            && (r.1 != Denied ==> Ended(r.0, d))
  {
  }

  /** Discarding after other transactions have run; false when the draft is another user's. */
  method DiscardLater(db: Database, q: Request, draftId: string, env: PrepareEnv) returns (own: bool)
    modifies db
    ensures db.State() == Run(db.cfg, old(db.State()), env.beforeDiscard + [DiscardOf(q, draftId, env)])
    ensures var met := Run(db.cfg, old(db.State()), env.beforeDiscard).drafts;
            own <==> Owned(met, draftId, q.chat.actor, env.discardedAt) != Foreign
    ensures own ==> Ended(db.State(), draftId)
  {
    ghost var s := db.State();
    db.Interleave(env.beforeDiscard);
    DiscardReply(db.State(), draftId, q.chat.actor, env.discardedAt);
    OneDraftCommand(db.cfg, s, env.beforeDiscard, DiscardOf(q, draftId, env));
    var reply := db.DiscardDraft(draftId, q.chat.actor, env.discardedAt);
    own := reply != Denied;
  }

  /** The discard in the end meets another user's draft. */
  predicate NotOwn(cfg: Settings, s: Store, q: Request, env: PrepareEnv, d: string) {
    Owned(Run(cfg, s, UpToWrite(q, env) + env.beforeDiscard).drafts, d, q.chat.actor, env.discardedAt) == Foreign
  }

  method StashFirst(db: Database, q: Request, env: PrepareEnv) returns (stashed: bool, previous: Option<Chat>)
    modifies db
    ensures PendingIs(previous) == ApplyChat(db.cfg, old(db.State()), RecallOf(q, env)).1
    ensures previous == if RowShown(db.cfg, old(db.chats), q.chat, env.recalledAt)
        then Some(old(db.chats)[q.chat]) else None
    ensures stashed == (q.draftId !in Run(db.cfg, old(db.State()), [RecallOf(q, env)] + env.beforeStash).drafts)
    ensures db.State() == Run(db.cfg, old(db.State()), UpToStash(q, env))
    ensures stashed ==> OwnUnclaimed(db.State(), q.draftId, q.chat.actor)
  {
    ghost var s, recall := db.State(), RecallOf(q, env);
    assert [] + [recall] == [recall];
    OneChatCommand(db.cfg, s, [], recall);
    var got := db.GetPendingForm(q.chat, env.recalledAt);
    previous := got.pending;
    db.Interleave(env.beforeStash);
    RunAppend(db.cfg, s, [recall], env.beforeStash);
    OneDraftCommand(db.cfg, s, [recall] + env.beforeStash, StashOf(q, env));
    var reply := db.StashDraft(q.draftId, q.chat.actor, q.proposal, env.stashedAt);
    stashed := reply != Crashed;
  }

  /** Other transactions, then the guarded write. */
  method WriteLater(db: Database, q: Request, env: PrepareEnv) returns (lost: bool)
    modifies db
    ensures db.State() == Run(db.cfg, old(db.State()), env.beforeWrite + [WriteOf(q, env)])
    ensures lost == Loses(db.cfg, Run(db.cfg, old(db.State()), env.beforeWrite), q, env)
  {
    OneChatCommand(db.cfg, db.State(), env.beforeWrite, WriteOf(q, env));
    db.Interleave(env.beforeWrite);
    lost := WriteReview(db, q, env);
  }

  /**
   * Stash a draft, then point the conversation at it if no newer message has begun. The
   * transactions, with those of others in between, are exactly `trace`; the answer is Superseded
   * exactly when the guarded write is refused in the store it meets.
   */
  method PrepareDraft(db: Database, q: Request, env: PrepareEnv)
    returns (result: Preparation, previous: Option<Chat>, ghost trace: seq<Command>)
    modifies db
    ensures db.State() == Run(db.cfg, old(db.State()), trace)
    ensures PendingIs(previous) == ApplyChat(db.cfg, old(db.State()), RecallOf(q, env)).1
    ensures previous == if RowShown(db.cfg, old(db.chats), q.chat, env.recalledAt)
        then Some(old(db.chats)[q.chat]) else None
    ensures var s := old(db.State());
            var stashed := q.draftId !in Run(db.cfg, s, [RecallOf(q, env)] + env.beforeStash).drafts;
            var lost := stashed && Loses(db.cfg, Run(db.cfg, s, UpToStash(q, env) + env.beforeWrite), q, env);
            var discarded := if lost then Some(q.draftId) else Reviewed(previous);
            && trace == (if stashed then PrepareTrace(q, env, discarded) else UpToStash(q, env))
            && (result == Superseded <==> lost)
            && (result == Prepared ==> stashed && (discarded.Some? ==> Ended(db.State(), discarded.value)))
            && (result == Raised
                <==> !stashed || (!lost && discarded.Some? && NotOwn(db.cfg, s, q, env, discarded.value)))
    ensures RowShown(db.cfg, old(db.chats), q.chat, env.recalledAt) && result == Prepared ==>
              var shown := old(db.chats)[q.chat].form;
              shown.operation == Some(ReviewDraft) && shown.reference != "" ==> Ended(db.State(), shown.reference)
  {
    ghost var s := db.State();
    var stashed;
    stashed, previous := StashFirst(db, q, env);
    trace := UpToStash(q, env);
    if !stashed {
      return Raised, previous, trace;
    }
    RunAppend(db.cfg, s, trace, env.beforeWrite);
    RunAppend(db.cfg, s, trace, env.beforeWrite + [WriteOf(q, env)]);
    assert trace + (env.beforeWrite + [WriteOf(q, env)]) == UpToWrite(q, env);
    var lost := WriteLater(db, q, env);
    assert db.State() == Run(db.cfg, s, UpToWrite(q, env));
    var own;
    own, trace := CleanUp(db, q, env, if lost then Some(q.draftId) else Reviewed(previous), s);
    result := if lost then Superseded else if own then Prepared else Raised;
  }

  /** Discards the draft that is to be discarded, if any; false when it is another user's. */
  method CleanUp(db: Database, q: Request, env: PrepareEnv, discarded: Option<string>, ghost s: Store)
    returns (own: bool, ghost trace: seq<Command>)
    requires db.State() == Run(db.cfg, s, UpToWrite(q, env))
    modifies db
    ensures trace == PrepareTrace(q, env, discarded) && db.State() == Run(db.cfg, s, trace)
    ensures own <==> discarded.None? || !NotOwn(db.cfg, s, q, env, discarded.value)
    ensures own && discarded.Some? ==> Ended(db.State(), discarded.value)
  {
    trace := UpToWrite(q, env);
    if discarded.None? {
      assert trace + [] == trace;
      return true, trace;
    }
    RunAppend(db.cfg, s, trace, env.beforeDiscard);
    RunAppend(db.cfg, s, trace, env.beforeDiscard + [DiscardOf(q, discarded.value, env)]);
    own := DiscardLater(db, q, discarded.value, env);
    trace := trace + (env.beforeDiscard + [DiscardOf(q, discarded.value, env)]);
  }

  // ----- what a preparation leaves behind -----

  /** A draft that this preparation has stashed is the actor's, whatever ran since. */
  lemma StashedStays(cfg: Settings, s: Store, q: Request, env: PrepareEnv, others: seq<Command>)
    requires q.draftId !in Run(cfg, s, [RecallOf(q, env)] + env.beforeStash).drafts
    ensures var r := Run(cfg, s, UpToStash(q, env) + others);
            && q.draftId in r.drafts && r.drafts[q.draftId].requester == q.chat.actor
            && (NoClaims(others, q.draftId) ==> r.drafts[q.draftId].state != Consumed)
  {
    OneDraftCommand(cfg, s, [RecallOf(q, env)] + env.beforeStash, StashOf(q, env));
    var stashed := Run(cfg, s, UpToStash(q, env));
    RunAppend(cfg, s, UpToStash(q, env), others);
    RunEvolves(cfg, stashed, others, q.draftId);
  }

  /** After a lost race the new draft is not active, and it is withdrawn if nobody claimed it meanwhile. */
  lemma LostDraftIsWithdrawn(cfg: Settings, s: Store, q: Request, env: PrepareEnv)
    requires q.draftId !in Run(cfg, s, [RecallOf(q, env)] + env.beforeStash).drafts
    ensures var r := Run(cfg, s, PrepareTrace(q, env, Some(q.draftId)));
            && q.draftId in r.drafts && r.drafts[q.draftId].state != Active
            && (NoClaims(env.beforeWrite, q.draftId) && NoClaims(env.beforeDiscard, q.draftId) ==>
                  r.drafts[q.draftId].state == Withdrawn)
  {
    var others := env.beforeWrite + [WriteOf(q, env)] + env.beforeDiscard;
    var before := UpToStash(q, env) + others;
    StashedStays(cfg, s, q, env, others);
    assert PrepareTrace(q, env, Some(q.draftId)) == before + [DiscardOf(q, q.draftId, env)];
    OneDraftCommand(cfg, s, before, DiscardOf(q, q.draftId, env));
    DiscardOwn(Run(cfg, s, before), q.draftId, q.chat.actor, env.discardedAt);
  }

  lemma DiscardOwn(s: Store, d: string, actor: UserId, now: int)
    requires d in s.drafts && s.drafts[d].requester == actor
    ensures var r := ApplyDraft(s, Discard(d, actor, now)).0;
            d in r.drafts && r.drafts[d].state == if s.drafts[d].state == Active then Withdrawn else s.drafts[d].state
  {
  }

  /**
   * Right after a write that was not lost, the conversation's row is the review of the new draft,
   * at the expected revision.
   */
  lemma WonRowPointsAtDraft(cfg: Settings, s: Store, q: Request, env: PrepareEnv)
    requires cfg.coordinatorEnabled && !Loses(cfg, Run(cfg, s, UpToStash(q, env) + env.beforeWrite), q, env)
    ensures var row := ChatOf(Run(cfg, s, UpToWrite(q, env)), q.chat);
            && row.form == ReviewForm(q.draftId) && row.expiresAt == Some(env.writtenAt + PENDING_TTL)
            && (q.revision.Some? ==> row.revision == q.revision.value)
  {
    OneChatCommand(cfg, s, UpToStash(q, env) + env.beforeWrite, WriteOf(q, env));
    LosesIffMovedOn(cfg, Run(cfg, s, UpToStash(q, env) + env.beforeWrite), q, env);
    ReviewWritten(cfg, Run(cfg, s, UpToStash(q, env) + env.beforeWrite), q, env);
  }

  /**
   * Discarding the draft reviewed before, after any transactions of others that leave this
   * conversation's form alone, leaves the row to the new draft; its revision has only counted events.
   */
  lemma DiscardKeepsRow(cfg: Settings, s: Store, q: Request, env: PrepareEnv, d: string)
    requires forall c | c in env.beforeDiscard ::
               LeavesForm(c, q.chat, ChatOf(Run(cfg, s, UpToWrite(q, env)), q.chat).expiresAt)
    ensures var before := ChatOf(Run(cfg, s, UpToWrite(q, env)), q.chat);
            var row := ChatOf(Run(cfg, s, PrepareTrace(q, env, Some(d))), q.chat);
            && row.form == before.form && row.expiresAt == before.expiresAt
            && (cfg.coordinatorEnabled ==> row.revision == before.revision + Begun(env.beforeDiscard, q.chat))
  {
    var trace := UpToWrite(q, env) + env.beforeDiscard;
    assert PrepareTrace(q, env, Some(d)) == trace + [DiscardOf(q, d, env)];
    OneDraftCommand(cfg, s, trace, DiscardOf(q, d, env));
    DiscardReply(Run(cfg, s, trace), d, q.chat.actor, env.discardedAt);
    RunAppend(cfg, s, UpToWrite(q, env), env.beforeDiscard);
    RunLeavesForm(cfg, Run(cfg, s, UpToWrite(q, env)), env.beforeDiscard, q.chat);
    if cfg.coordinatorEnabled {
      RunRevision(cfg, Run(cfg, s, UpToWrite(q, env)), env.beforeDiscard, q.chat);
    }
  }

  /**
   * In the store in which a preparation that was not lost ends, the conversation's row is the
   * review of the new draft, unless another transaction rewrote or cleared that row meanwhile.
   */
  lemma PreparedRowPointsAtDraft(cfg: Settings, s: Store, q: Request, env: PrepareEnv, discarded: Option<string>)
    requires cfg.coordinatorEnabled && !Loses(cfg, Run(cfg, s, UpToStash(q, env) + env.beforeWrite), q, env)
    requires forall c | c in env.beforeDiscard :: LeavesForm(c, q.chat, Some(env.writtenAt + PENDING_TTL))
    ensures var row := ChatOf(Run(cfg, s, PrepareTrace(q, env, discarded)), q.chat);
            var events := if discarded.Some? then Begun(env.beforeDiscard, q.chat) else 0;
            && row.form == ReviewForm(q.draftId) && row.expiresAt == Some(env.writtenAt + PENDING_TTL)
            && (q.revision.Some? ==> row.revision == q.revision.value + events)
  {
    WonRowPointsAtDraft(cfg, s, q, env);
    match discarded
    case None => assert PrepareTrace(q, env, None) == UpToWrite(q, env);
    case Some(d) => DiscardKeepsRow(cfg, s, q, env, d);
  }

  // ----- who loses the race -----

  lemma BegunMeanwhile(k: ChatKey, q: Request, env: PrepareEnv)
    ensures Begun(UpToStash(q, env) + env.beforeWrite, k) == Begun(env.beforeStash, k) + Begun(env.beforeWrite, k)
  {
    var recall, stash := [RecallOf(q, env)], [StashOf(q, env)];
    assert recall[..0] == [] && stash[..0] == [];
    assert Begun(recall, k) == Begun([], k) && Begun(stash, k) == Begun([], k);
    BegunAppend(recall, env.beforeStash, k);
    BegunAppend(recall + env.beforeStash, stash, k);
    BegunAppend(UpToStash(q, env), env.beforeWrite, k);
  }

  lemma MovedOnIffBegun(cfg: Settings, start: Store, history: seq<Command>, during: seq<Command>, at: Store, i: nat,
                        q: Request)
    requires cfg.coordinatorEnabled && i < |history| && Begins(history[i], q.chat)
    requires at == Run(cfg, Run(cfg, start, history), during)
    requires ReplyAt(cfg, start, history, i) == Revision(q.revision)
    ensures q.revision.Some?
    ensures RevisionOf(at, q.chat) == q.revision.value + Begun(history[i + 1..], q.chat) + Begun(during, q.chat)
  {
    assert history[..|history|] == history;
    RevisionAfterEvent(cfg, start, history, q.chat, i, |history|);
    RunRevision(cfg, Run(cfg, start, history), during, q.chat);
  }

  /**
   * A preparation working for the message that began event `i` of the history loses its race
   * exactly when a newer event of the conversation began, before it started or during its waits.
   */
  lemma LosesIffNewerEvent(cfg: Settings, start: Store, history: seq<Command>, i: nat, q: Request, env: PrepareEnv,
                           at: Store)
    requires cfg.coordinatorEnabled && i < |history| && Begins(history[i], q.chat)
    requires ReplyAt(cfg, start, history, i) == Revision(q.revision)
    requires at == Run(cfg, Run(cfg, start, history), UpToStash(q, env) + env.beforeWrite)
    ensures Loses(cfg, at, q, env)
       <==> Begun(history[i + 1..], q.chat) + Begun(env.beforeStash, q.chat) + Begun(env.beforeWrite, q.chat) > 0
  {
    MovedOnIffBegun(cfg, start, history, UpToStash(q, env) + env.beforeWrite, at, i, q);
    BegunMeanwhile(q.chat, q, env);
    LosesIffMovedOn(cfg, at, q, env);
  }
}
