/**
 The scheduling part of the durable loop state: reservations, attempt budgets and their history
 (src/devloop/state.py:883-1137).
 */
module LoopState {
  import opened Wrappers
  import opened IssueGraph
  import opened IssueScheduler

  datatype IssueStatus =
    | Pending | Ready | InProgress | WaitingOnDependency | WaitingForInput | ChangesRequested
    | Completed | Blocked | Failed | Cancelled | Skipped

  datatype HistoryEntry = HistoryEntry(attempt: Attempt, outcome: IssueStatus, consumed: bool)

  datatype SchedulerState = SchedulerState(
    status: map<Number, IssueStatus>,
    normalAttempted: set<Number>,
    additionalPasses: map<Number, nat>,
    active: Option<Attempt>,
    history: seq<HistoryEntry>)

  datatype StateError = OrdinalNotPositive | PhaseNotExecutable | AnotherAttemptIsActive | NoActiveAttempt

  function StatusOf(st: SchedulerState, n: Number): Option<IssueStatus> {
    if n in st.status then Some(st.status[n]) else None
  }

  /** Statuses that a projection may overwrite. */
  predicate Unstarted(status: Option<IssueStatus>) {
    status in {None, Some(Pending), Some(Ready), Some(WaitingOnDependency), Some(Skipped)}
  }

  function ProjectedStatus(status: Option<IssueStatus>, ready: bool, waiting: bool): Option<IssueStatus> {
    if !Unstarted(status) then status
    else if waiting then Some(WaitingOnDependency)
    else if ready then Some(Ready)
    else status
  }

  ghost predicate StatusesProjected(
    before: SchedulerState, after: SchedulerState, issues: seq<Number>, ready: set<Number>, waiting: set<Number>)
  {
    && (forall n | n in issues ::
          StatusOf(after, n) == ProjectedStatus(StatusOf(before, n), n in ready, n in waiting))
    && (forall n | n !in issues :: StatusOf(after, n) == StatusOf(before, n))
  }

  // ---------------------------------------------------------------------------------------------
  // Reservations

  /** The active attempt ends and spends its budget. */
  function Consumed(st: SchedulerState, issue: Number, outcome: IssueStatus): Result<SchedulerState, StateError> {
    if st.active.None? || st.active.value.issue != issue then Failure(NoActiveAttempt)
    else
      var a := st.active.value;
      var entry := HistoryEntry(a, outcome, true);
      var ended := st.(active := None, history := st.history + [entry]);
      Success(
        if a.phase == NormalScheduling then ended.(normalAttempted := st.normalAttempted + {issue})
        else
          var before := Passes(st.additionalPasses, issue);
          ended.(additionalPasses := st.additionalPasses[issue := if before > a.ordinal then before else a.ordinal]))
  }

  /** The active attempt ends without spending anything. */
  function Released(st: SchedulerState, issue: Number, outcome: IssueStatus): Result<SchedulerState, StateError> {
    if st.active.None? || st.active.value.issue != issue then Failure(NoActiveAttempt)
    else Success(st.(active := None, history := st.history + [HistoryEntry(st.active.value, outcome, false)]))
  }

  class LoopStateWriter {
    var state: SchedulerState

    constructor (state: SchedulerState)
      ensures this.state == state
    {
      this.state := state;
    }

    method RecordDependencyProjection(issues: seq<Number>, ready: set<Number>, waiting: set<Number>)
      modifies this
      ensures state == old(state).(status := state.status)
      ensures StatusesProjected(old(state), state, issues, ready, waiting)
    {
      for i := 0 to |issues|
        invariant state == old(state).(status := state.status)
        invariant StatusesProjected(old(state), state, issues[..i], ready, waiting)
      {
        var n := issues[i];
        var started := n in state.status && state.status[n] !in {Pending, Ready, WaitingOnDependency, Skipped};
        if n in waiting {
          if !started {
            state := state.(status := state.status[n := WaitingOnDependency]);
          }
          continue;
        }
        if n in ready && !started {
          state := state.(status := state.status[n := Ready]);
        }
      }
      assert issues[..|issues|] == issues;
    }

    method ReserveSchedulingAttempt(a: Attempt) returns (r: Result<(), StateError>)
      modifies this
      ensures r.Success? <==>
        && a.ordinal >= 1 && a.phase in {NormalScheduling, BlockerResolution}
        && (old(state).active.None? || old(state).active == Some(a))
      ensures r.Failure? ==> state == old(state)
      ensures r.Success? ==> state == old(state).(active := Some(a))
      // reserving again has no effect
      ensures old(state).active == Some(a) ==> state == old(state)
      // an attempt its issue is entitled to is granted and keeps the accounts
      ensures forall cap: nat | Accounted(old(state), cap) && old(state).active.None? && Entitled(old(state), a, cap) ::
        r.Success? && Accounted(state, cap)
    {
      forall cap: nat | Accounted(state, cap) && state.active.None? && Entitled(state, a, cap)
        ensures a.ordinal >= 1 && Accounted(state.(active := Some(a)), cap)
      {
        ReservingKeepsAccounts(state, a, cap);
      }
      if a.ordinal < 1 {
        return Failure(OrdinalNotPositive);
      }
      if a.phase !in {NormalScheduling, BlockerResolution} {
        return Failure(PhaseNotExecutable);
      }
      if state.active.Some? && state.active != Some(a) {
        return Failure(AnotherAttemptIsActive);
      }
      state := state.(active := Some(a));
      return Success(());
    }

    method CompleteSchedulingAttempt(issue: Number, outcome: IssueStatus) returns (r: Result<(), StateError>)
      modifies this
      ensures r.Success? <==> old(state).active.Some? && old(state).active.value.issue == issue
      ensures r.Failure? ==> state == old(state)
      ensures r.Success? ==> Consumed(old(state), issue, outcome) == Success(state)
      // exactly this attempt is charged, once
      ensures r.Success? ==> forall n, phase ::
        Charged(state.history, n, phase) == Charged(old(state).history, n, phase)
          + if n == issue && phase == old(state).active.value.phase then 1 else 0
      ensures r.Success? ==> forall cap: nat | Accounted(old(state), cap) :: Accounted(state, cap)
    {
      hide Charged, Accounted;
      if state.active.Some? && state.active.value.issue == issue {
        ConsumingCharges(state, issue, outcome);
      }
      if state.active.None? || state.active.value.issue != issue {
        return Failure(NoActiveAttempt);
      }
      var a := state.active.value;
      if a.phase == NormalScheduling {
        state := state.(normalAttempted := state.normalAttempted + {issue});
      } else {
        var before := if issue in state.additionalPasses then state.additionalPasses[issue] else 0;
        var after := if before > a.ordinal then before else a.ordinal;
        state := state.(additionalPasses := state.additionalPasses[issue := after]);
      }
      state := state.(history := state.history + [HistoryEntry(a, outcome, true)]);
      state := state.(active := None);
      return Success(());
    }

    method ReleaseSchedulingAttempt(issue: Number, outcome: IssueStatus) returns (r: Result<(), StateError>)
      modifies this
      ensures r.Success? <==> old(state).active.Some? && old(state).active.value.issue == issue
      ensures r.Failure? ==> state == old(state)
      ensures r.Success? ==> Released(old(state), issue, outcome) == Success(state)
      // nothing is charged
      ensures r.Success? ==> forall n, phase ::
        Charged(state.history, n, phase) == Charged(old(state).history, n, phase)
      ensures r.Success? ==> forall cap: nat | Accounted(old(state), cap) :: Accounted(state, cap)
    {
      hide Charged, Accounted;
      if state.active.Some? && state.active.value.issue == issue {
        ReleasingCharges(state, issue, outcome);
      }
      if state.active.None? || state.active.value.issue != issue {
        return Failure(NoActiveAttempt);
      }
      state := state.(history := state.history + [HistoryEntry(state.active.value, outcome, false)]);
      state := state.(active := None);
      return Success(());
    }
  }

  // ---------------------------------------------------------------------------------------------
  // Accounting

  /** How often the history charges `n` an attempt of this phase. */
  function Charged(history: seq<HistoryEntry>, n: Number, phase: SchedulingPhase): nat {
    if history == [] then 0
    else
      var last := history[|history| - 1];
      Charged(history[..|history| - 1], n, phase)
      + if last.consumed && last.attempt.issue == n && last.attempt.phase == phase then 1 else 0
  }

  /** A reservation is the next one its issue is entitled to. */
  predicate Entitled(st: SchedulerState, a: Attempt, cap: nat) {
    match a.phase
    case NormalScheduling => a.ordinal == 1 && a.issue !in st.normalAttempted
    case BlockerResolution => a.ordinal == Passes(st.additionalPasses, a.issue) + 1 <= cap
    case _ => false
  }

  predicate NextRound(history: seq<HistoryEntry>, e: HistoryEntry) {
    e.consumed && e.attempt.phase == BlockerResolution ==>
      e.attempt.ordinal == Charged(history, e.attempt.issue, BlockerResolution) + 1
  }

  predicate RoundsNumbered(history: seq<HistoryEntry>) {
    forall i | 0 <= i < |history| :: NextRound(history[..i], history[i])
  }

  /**
   The durable counters are exactly what the history has charged: one normal attempt at most, and
   Blocker Resolution passes numbered 1, 2, ... up to the budget.
   */
  ghost predicate Accounted(st: SchedulerState, cap: nat) {
    && (forall n :: Charged(st.history, n, NormalScheduling) == if n in st.normalAttempted then 1 else 0)
    && (forall n :: Charged(st.history, n, BlockerResolution) == Passes(st.additionalPasses, n) <= cap)
    && RoundsNumbered(st.history)
    && (st.active.Some? ==> Entitled(st, st.active.value, cap))
  }

  lemma ChargedSnoc(history: seq<HistoryEntry>, e: HistoryEntry, n: Number, phase: SchedulingPhase)
    ensures Charged(history + [e], n, phase)
         == Charged(history, n, phase)
            + if e.consumed && e.attempt.issue == n && e.attempt.phase == phase then 1 else 0
  {
    assert (history + [e])[..|history|] == history;
  }

  lemma RoundsSnoc(history: seq<HistoryEntry>, e: HistoryEntry)
    requires RoundsNumbered(history) && NextRound(history, e)
    ensures RoundsNumbered(history + [e])
  {
    forall i | 0 <= i < |history + [e]| ensures NextRound((history + [e])[..i], (history + [e])[i]) {
      assert (history + [e])[..i] == history[..i];
      assert history[..|history|] == history;
    }
  }

  lemma ConsumingKeepsAccounts(st: SchedulerState, issue: Number, outcome: IssueStatus, cap: nat)
    requires Accounted(st, cap) && st.active.Some? && st.active.value.issue == issue
    ensures Accounted(Consumed(st, issue, outcome).value, cap)
  {
    hide Charged, RoundsNumbered;
    var e := HistoryEntry(st.active.value, outcome, true);
    RoundsSnoc(st.history, e);
    forall n, phase ensures Charged(st.history + [e], n, phase)
      == Charged(st.history, n, phase) + if e.attempt.issue == n && e.attempt.phase == phase then 1 else 0
    {
      ChargedSnoc(st.history, e, n, phase);
    }
  }

  lemma ReleasingKeepsAccounts(st: SchedulerState, issue: Number, outcome: IssueStatus, cap: nat)
    requires Accounted(st, cap) && st.active.Some? && st.active.value.issue == issue
    ensures Accounted(Released(st, issue, outcome).value, cap)
  {
    hide Charged, RoundsNumbered;
    var e := HistoryEntry(st.active.value, outcome, false);
    RoundsSnoc(st.history, e);
    forall n, phase ensures Charged(st.history + [e], n, phase) == Charged(st.history, n, phase) {
      ChargedSnoc(st.history, e, n, phase);
    }
  }

  lemma ReservingKeepsAccounts(st: SchedulerState, a: Attempt, cap: nat)
    requires Accounted(st, cap) && st.active.None? && Entitled(st, a, cap)
    ensures a.ordinal >= 1 && Accounted(st.(active := Some(a)), cap)
  {
  }

  /** Ending an attempt charges exactly that attempt, and keeps the accounts. */
  lemma ConsumingCharges(st: SchedulerState, issue: Number, outcome: IssueStatus)
    requires st.active.Some? && st.active.value.issue == issue
    ensures var after := Consumed(st, issue, outcome).value;
            && (forall n, phase :: Charged(after.history, n, phase) == Charged(st.history, n, phase)
                  + if n == issue && phase == st.active.value.phase then 1 else 0)
            && forall cap: nat | Accounted(st, cap) :: Accounted(after, cap)
  {
    hide Charged, Accounted;
    var e := HistoryEntry(st.active.value, outcome, true);
    forall n, phase ensures Charged(st.history + [e], n, phase) == Charged(st.history, n, phase)
      + if n == issue && phase == st.active.value.phase then 1 else 0
    {
      ChargedSnoc(st.history, e, n, phase);
    }
    forall cap: nat | Accounted(st, cap) ensures Accounted(Consumed(st, issue, outcome).value, cap) {
      ConsumingKeepsAccounts(st, issue, outcome, cap);
    }
  }

  /** Releasing an attempt charges nothing, and keeps the accounts. */
  lemma ReleasingCharges(st: SchedulerState, issue: Number, outcome: IssueStatus)
    requires st.active.Some? && st.active.value.issue == issue
    ensures var after := Released(st, issue, outcome).value;
            && (forall n, phase :: Charged(after.history, n, phase) == Charged(st.history, n, phase))
            && forall cap: nat | Accounted(st, cap) :: Accounted(after, cap)
  {
    hide Charged, Accounted;
    var e := HistoryEntry(st.active.value, outcome, false);
    forall n, phase ensures Charged(st.history + [e], n, phase) == Charged(st.history, n, phase) {
      ChargedSnoc(st.history, e, n, phase);
    }
    forall cap: nat | Accounted(st, cap) ensures Accounted(Released(st, issue, outcome).value, cap) {
      ReleasingKeepsAccounts(st, issue, outcome, cap);
    }
  }

  /** Over the whole history no issue is charged more than its one attempt plus its budget of passes. */
  lemma NeverOvercharged(st: SchedulerState, cap: nat, n: Number)
    requires Accounted(st, cap)
    ensures Charged(st.history, n, NormalScheduling) + Charged(st.history, n, BlockerResolution) <= 1 + cap
  {
  }
}
