/**
 * One draft row under weaker isolation than the ledger assumes: reads may be stale, ordinary
 * writes are unconditional, and only the conditional update that claims the draft is atomic,
 * holding the row until its transaction commits or rolls back.
 */
module DraftRace {
  import opened Wrappers

  datatype RowState = Active | Consumed | Withdrawn

  datatype Phase = Idle | SawLive | SawExpired | Holding | Finished

  datatype World = World(row: RowState, phases: map<nat, Phase>, holder: Option<nat>, created: nat)

  const START: World := World(Active, map[], None, 0)

  datatype Event =
    | Look(pid: nat, stale: bool, expired: bool)
    | ClaimRow(pid: nat)
    | Commit(pid: nat)
    | Rollback(pid: nat)
    | Withdraw(pid: nat)

  function PhaseOf(w: World, p: nat): Phase {
    if p in w.phases then w.phases[p] else Idle
  }

  function At(w: World, p: nat, phase: Phase): World {
    w.(phases := w.phases[p := phase])
  }

  /** What a read returns: the row, or its state before the uncommitted claim. */
  function Seen(w: World, stale: bool): RowState {
    if stale && w.holder.Some? then Active else w.row
  }

  /** A process has looked at the row while it was active and has not acted on that yet. */
  predicate HasLooked(w: World, p: nat) {
    PhaseOf(w, p) == SawLive || PhaseOf(w, p) == SawExpired
  }

  /** The unconditional write of a process that has looked at the row, unless a claim holds it. */
  predicate Overwrites(w: World, e: Event) {
    e.Withdraw? && HasLooked(w, e.pid) && w.holder == None
  }

  function Step(w: World, e: Event): World {
    match e
    case Look(p, stale, expired) =>
      if PhaseOf(w, p) != Idle then w
      else if Seen(w, stale) != Active then At(w, p, Finished)
      else At(w, p, if expired then SawExpired else SawLive)
    case ClaimRow(p) =>
      if PhaseOf(w, p) != SawLive || w.holder.Some? then w
      else if w.row == Active then At(w, p, Holding).(row := Consumed, holder := Some(p))
      else At(w, p, Finished)
    case Commit(p) =>
      if w.holder != Some(p) then w else At(w, p, Finished).(holder := None, created := w.created + 1)
    case Rollback(p) =>
      if w.holder != Some(p) then w else At(w, p, Finished).(holder := None, row := Active)
    case Withdraw(p) =>
      if Overwrites(w, e) then At(w, p, Finished).(row := Withdrawn) else w
  }

  function Run(w: World, events: seq<Event>): World {
    if events == [] then w else Step(Run(w, events[..|events| - 1]), events[|events| - 1])
  }

  /** A process looks, acts on that at most once, and is finished for good. */
  lemma {:induction false} FinishedStays(w: World, events: seq<Event>, p: nat)
    requires PhaseOf(w, p) == Finished
    ensures w.holder != Some(p) ==> PhaseOf(Run(w, events), p) == Finished && Run(w, events).holder != Some(p)
  {
    if events != [] && w.holder != Some(p) {
      FinishedStays(w, events[..|events| - 1], p);
    }
  }

  /** A claim takes the row exactly when its process saw it live, nobody holds it and it is active. */
  lemma ClaimTakesRowIff(w: World, p: nat)
    ensures var r := Step(w, ClaimRow(p));
            && (r.holder == Some(p) && r.row == Consumed && r != w
                <==> PhaseOf(w, p) == SawLive && w.holder == None && w.row == Active)
            && (w.holder.Some? || PhaseOf(w, p) != SawLive ==> r == w)
            && r.created == w.created
  {
  }

  predicate Safe(w: World) {
    && w.created + (if w.holder.Some? then 1 else 0) <= 1
    && (w.created == 1 || w.holder.Some? ==> w.row != Active)
    && (w.row == Consumed ==> w.created == 1 || w.holder.Some?)
  }

  /** Under every interleaving a draft yields at most one committed task, and is never claimed again after. */
  lemma {:induction false} AtMostOneTask(events: seq<Event>)
    ensures Safe(Run(START, events)) && Run(START, events).created <= 1
  {
    if events != [] {
      AtMostOneTask(events[..|events| - 1]);
    }
  }

  /** The task is committed and the row says so. */
  predicate Committed(w: World) {
    w.created == 1 && w.row == Consumed && w.holder == None
  }

  ghost predicate NobodyHasLooked(w: World) {
    forall p: nat :: !HasLooked(w, p)
  }

  lemma StepAfterCommit(w: World, e: Event)
    requires Committed(w) && NobodyHasLooked(w)
    ensures Committed(Step(w, e)) && NobodyHasLooked(Step(w, e))
  {
    assert !HasLooked(w, e.pid);
    forall p: nat ensures !HasLooked(Step(w, e), p) {
      assert !HasLooked(w, p);
    }
  }

  lemma {:induction false} NobodyLooksAfterCommit(w: World, events: seq<Event>)
    requires Committed(w) && NobodyHasLooked(w)
    ensures Committed(Run(w, events)) && NobodyHasLooked(Run(w, events))
  {
    if events != [] {
      NobodyLooksAfterCommit(w, events[..|events| - 1]);
      StepAfterCommit(Run(w, events[..|events| - 1]), events[|events| - 1]);
    }
  }

  predicate EndsConsumed(w: World, events: seq<Event>) {
    Run(w, events).row == Consumed
  }

  /**
   * Exactly when the row is sure to stay consumed, told at the commit: it does so whatever
   * happens next if and only if no process has looked at the draft without having acted on it yet.
   */
  lemma StaysConsumedIffNobodyHasLooked(w: World)
    requires Safe(w) && w.created == 1 && w.row == Consumed
    ensures (forall events :: EndsConsumed(w, events)) <==> NobodyHasLooked(w)
  {
    if NobodyHasLooked(w) {
      forall events ensures EndsConsumed(w, events) {
        NobodyLooksAfterCommit(w, events);
      }
    } else {
      var p: nat :| HasLooked(w, p);
      var write := [Withdraw(p)];
      assert write[..|write| - 1] == [] && Overwrites(w, write[0]);
      assert Run(w, write) == Step(w, write[0]);
      assert !EndsConsumed(w, write);
    }
  }

  /** Even then no second task is created. */
  lemma {:induction false} NoSecondTask(w: World, events: seq<Event>)
    requires Safe(w) && w.created == 1
    ensures Safe(Run(w, events)) && Run(w, events).created == 1
  {
    if events != [] {
      NoSecondTask(w, events[..|events| - 1]);
    }
  }

  lemma OneMore(w: World, events: seq<Event>, e: Event, all: seq<Event>)
    requires all == events + [e]
    ensures Run(w, all) == Step(Run(w, events), e)
  {
    assert all[..|all| - 1] == events;
  }

  /** It takes no more than a read that is stale while the claim is being committed. */
  lemma StaleLookLosesRow()
    ensures var w := Run(START, [Look(1, false, false), ClaimRow(1), Look(0, true, true), Commit(1), Withdraw(0)]);
            w.created == 1 && w.row == Withdrawn
  {
    var a, c, b := Look(1, false, false), ClaimRow(1), Look(0, true, true);
    OneMore(START, [], a, [a]);
    OneMore(START, [a], c, [a, c]);
    OneMore(START, [a, c], b, [a, c, b]);
    OneMore(START, [a, c, b], Commit(1), [a, c, b, Commit(1)]);
    OneMore(START, [a, c, b, Commit(1)], Withdraw(0), [a, c, b, Commit(1), Withdraw(0)]);
    var held := At(At(START, 1, SawLive), 1, Holding).(row := Consumed, holder := Some(1));
    assert Run(START, [a, c]) == held;
    assert Run(START, [a, c, b]) == At(held, 0, SawExpired);
  }

  /** Such a loss does happen: a peek that saw the draft just expired writes after another user's commit. */
  lemma TaskWithoutConsumedDraft()
    ensures var w := Run(START, [Look(1, false, false), Look(0, false, true), ClaimRow(1), Commit(1), Withdraw(0)]);
            w.created == 1 && w.row == Withdrawn
  {
    var a, b := Look(1, false, false), Look(0, false, true);
    OneMore(START, [], a, [a]);
    OneMore(START, [a], b, [a, b]);
    OneMore(START, [a, b], ClaimRow(1), [a, b, ClaimRow(1)]);
    OneMore(START, [a, b, ClaimRow(1)], Commit(1), [a, b, ClaimRow(1), Commit(1)]);
    OneMore(START, [a, b, ClaimRow(1), Commit(1)], Withdraw(0), [a, b, ClaimRow(1), Commit(1), Withdraw(0)]);
    var looked := At(At(START, 1, SawLive), 0, SawExpired);
    assert Run(START, [a, b]) == looked;
    assert Run(START, [a, b, ClaimRow(1)]) == At(looked, 1, Holding).(row := Consumed, holder := Some(1));
  }
}
