/**
 What a run of the driver loop means in terms of what its executions did: which outcome each of them
 is recorded with, when an issue counts as complete, and what an attempt is made of
 (src/devloop/cli.py:166-335). Nothing here refers to how the loop decides.
 */
module ScheduleOutcomes {
  import opened Wrappers
  import opened IssueGraph
  import opened IssueScheduler
  import opened DependencySchedule
  import L = LoopState

  // ---------------------------------------------------------------------------------------------
  // What the executions left behind

  /** The status of `n` that was written last: by an execution of `n`, or else before the run. */
  ghost function LastWritten(
    before: L.SchedulerState, execute: seq<Attempt> -> Effect, calls: seq<Attempt>, n: Number)
    : Option<L.IssueStatus>
  {
    if calls == [] then (if n in before.status then Some(before.status[n]) else None)
    else
      var last := |calls| - 1;
      if calls[last].issue == n && execute(calls).status.Some? then execute(calls).status
      else LastWritten(before, execute, calls[..last], n)
  }

  /** The statuses that decide an outcome by themselves. */
  predicate Decides(status: Option<L.IssueStatus>) {
    status == Some(L.Completed) || status == Some(L.ChangesRequested) || status == Some(L.Blocked)
    || status == Some(L.Failed) || status == Some(L.Cancelled) || status == Some(L.WaitingForInput)
  }

  /** The entry records this attempt with the written status if that decides, and else by the role. */
  predicate IsOutcome(e: L.HistoryEntry, a: Attempt, written: Option<L.IssueStatus>, role: RoleStatus) {
    && e.attempt == a
    && (Decides(written) ==> e.outcome == written.value)
    && (!Decides(written) && role == Pass ==> e.outcome == L.Completed)
    && (!Decides(written) && role == Fail ==> e.outcome == L.Failed)
    && (!Decides(written) && role != Pass && role != Fail ==> e.outcome == L.Blocked)
    && (e.consumed <==> written != Some(L.Cancelled) && written != Some(L.WaitingForInput))
  }

  /** `shown` is `written`, or what a projection shows for an issue that has not been started. */
  predicate Shows(shown: Option<L.IssueStatus>, written: Option<L.IssueStatus>) {
    || shown == written
    || (&& written in {None, Some(L.Pending), Some(L.Ready), Some(L.WaitingOnDependency), Some(L.Skipped)}
        && shown in {Some(L.Ready), Some(L.WaitingOnDependency)})
  }

  /** The reservation was closed before the first execution. */
  predicate ClosesReservation(cfg: Config, before: L.SchedulerState) {
    && before.active.Some? && before.active.value.issue in cfg.selected
    && before.active.value.issue in before.status && before.status[before.active.value.issue] == L.Completed
  }

  function HistoryAtStart(cfg: Config, before: L.SchedulerState): seq<L.HistoryEntry> {
    if ClosesReservation(cfg, before)
    then before.history + [L.HistoryEntry(before.active.value, L.Completed, true)]
    else before.history
  }

  /** How many executions of the run returned. */
  function ReturnedCalls(run: Run): nat {
    if run.result.Paused? && run.calls != [] then |run.calls| - 1 else |run.calls|
  }

  /** One entry per returned execution, each with its outcome. */
  ghost predicate Records(
    before: L.SchedulerState, execute: seq<Attempt> -> Effect, calls: seq<Attempt>, first: seq<L.HistoryEntry>,
    history: seq<L.HistoryEntry>, returned: nat)
    requires returned <= |calls|
  {
    && |history| == |first| + returned && history[..|first|] == first
    && forall j | 0 <= j < returned :: RecordsCall(before, execute, calls, history, |first|, j)
  }

  ghost predicate RecordsCall(
    before: L.SchedulerState, execute: seq<Attempt> -> Effect, calls: seq<Attempt>, history: seq<L.HistoryEntry>,
    start: nat, j: nat)
    requires j < |calls| && start + j < |history|
  {
    var effect := execute(calls[..j + 1]);
    effect.Returned?
    && IsOutcome(history[start + j], calls[j], LastWritten(before, execute, calls[..j + 1], calls[j].issue), effect.role)
  }

  /** One returned execution appends one entry, with the outcome of the status it leaves. */
  lemma ExecutionIsRecorded(cfg: Config, s: Session, a: Attempt, e: Effect)
    requires e.Returned?
    ensures var s' := Advanced(cfg, s, a, e);
      && |s'.state.history| == |s.state.history| + 1 && s'.state.history[..|s.state.history|] == s.state.history
      && var entry := s'.state.history[|s.state.history|];
         IsOutcome(entry, a, L.StatusOf(s'.state, a.issue), e.role)
         && s'.done == s.done + if entry.outcome == L.Completed then {a.issue} else {}
  {
    hide Projected, VerdictOf, IsOutcome;
    ProjectedFields(cfg, s.state, s.done);
    VerdictMeans(a, L.StatusOf(WithStatus(Reserved(cfg, s, a), a.issue, e.status), a.issue), e.role);
  }

  lemma VerdictMeans(a: Attempt, status: Option<L.IssueStatus>, role: RoleStatus)
    ensures var v := VerdictOf(status, role); IsOutcome(L.HistoryEntry(a, v.outcome, v.consumed), a, status, role)
  {
  }

  lemma ExecutionIsShown(cfg: Config, s: Session, a: Attempt, e: Effect, n: Number, written: Option<L.IssueStatus>)
    requires Shows(L.StatusOf(s.state, n), written)
    ensures Shows(
      L.StatusOf(Advanced(cfg, s, a, e).state, n), if a.issue == n && e.status.Some? then e.status else written)
    ensures Shows(L.StatusOf(Projected(cfg, s.state, s.done), n), written)
  {
    ProjectedStatuses(cfg, s.state, s.done, n);
    hide Projected;
    var reserved := Projected(cfg, s.state, s.done).(active := Some(a));
    assert L.StatusOf(reserved, n) == L.StatusOf(Projected(cfg, s.state, s.done), n);
  }

  lemma ShownDecides(
    e: L.HistoryEntry, a: Attempt, shown: Option<L.IssueStatus>, written: Option<L.IssueStatus>, role: RoleStatus)
    requires Shows(shown, written)
    ensures IsOutcome(e, a, shown, role) <==> IsOutcome(e, a, written, role)
    ensures Decides(shown) == Decides(written) && (Decides(shown) ==> shown == written)
  {
  }

  lemma {:induction false} StatusesAfter(
    cfg: Config, before: L.SchedulerState, execute: seq<Attempt> -> Effect, calls: seq<Attempt>, n: Number)
    ensures Shows(
      L.StatusOf(After(cfg, Opened(cfg, before), execute, calls).state, n), LastWritten(before, execute, calls, n))
  {
    hide Advanced, Projected;
    if calls == [] {
      OpenedShows(cfg, before, n);
    } else {
      var last := |calls| - 1;
      StatusesAfter(cfg, before, execute, calls[..last], n);
      ExecutionIsShown(
        cfg, After(cfg, Opened(cfg, before), execute, calls[..last]), calls[last], execute(calls), n,
        LastWritten(before, execute, calls[..last], n));
    }
  }

  lemma OpenedShows(cfg: Config, before: L.SchedulerState, n: Number)
    ensures Shows(L.StatusOf(Opened(cfg, before).state, n), LastWritten(before, (_: seq<Attempt>) => Interrupted(None), [], n))
    ensures Opened(cfg, before).state.history == HistoryAtStart(cfg, before)
  {
    var done := InitiallyCompleted(cfg.pack, before);
    ProjectedStatuses(cfg, before, done, n);
    ProjectedFields(cfg, before, done);
    hide Projected;
  }

  lemma {:induction false} HistoryAfter(
    cfg: Config, before: L.SchedulerState, execute: seq<Attempt> -> Effect, calls: seq<Attempt>)
    requires forall j | 0 <= j < |calls| :: EffectAt(execute, calls, j).Returned?
    ensures Records(
      before, execute, calls, HistoryAtStart(cfg, before),
      After(cfg, Opened(cfg, before), execute, calls).state.history, |calls|)
  {
    hide Advanced, Projected, Opened, IsOutcome;
    var first := HistoryAtStart(cfg, before);
    if calls == [] {
      OpenedShows(cfg, before, "");
    } else {
      var last := |calls| - 1;
      var init := calls[..last];
      forall j | 0 <= j < last ensures EffectAt(execute, init, j).Returned? {
        assert init[..j + 1] == calls[..j + 1];
        assert EffectAt(execute, calls, j).Returned?;
      }
      HistoryAfter(cfg, before, execute, init);
      var s := After(cfg, Opened(cfg, before), execute, init);
      assert calls[..last + 1] == calls && EffectAt(execute, calls, last).Returned?;
      ExecutionIsRecorded(cfg, s, calls[last], execute(calls));
      StatusesAfter(cfg, before, execute, calls, calls[last].issue);
      var h := After(cfg, Opened(cfg, before), execute, calls).state.history;
      ShownDecides(
        h[|first| + last], calls[last],
        L.StatusOf(After(cfg, Opened(cfg, before), execute, calls).state, calls[last].issue),
        LastWritten(before, execute, calls, calls[last].issue), execute(calls).role);
      RecordsSnoc(before, execute, calls, first, s.state.history, h);
    }
  }

  lemma RecordsSnoc(
    before: L.SchedulerState, execute: seq<Attempt> -> Effect, calls: seq<Attempt>, first: seq<L.HistoryEntry>,
    earlier: seq<L.HistoryEntry>, history: seq<L.HistoryEntry>)
    requires calls != [] && Records(before, execute, calls[..|calls| - 1], first, earlier, |calls| - 1)
    requires |history| == |earlier| + 1 && history[..|earlier|] == earlier
    requires RecordsCall(before, execute, calls, history, |first|, |calls| - 1)
    ensures Records(before, execute, calls, first, history, |calls|)
  {
    hide IsOutcome, LastWritten;
    var init := calls[..|calls| - 1];
    assert history[..|first|] == earlier[..|first|];
    forall j | 0 <= j < |calls| ensures RecordsCall(before, execute, calls, history, |first|, j) {
      if j < |init| {
        assert init[..j + 1] == calls[..j + 1] && earlier[|first| + j] == history[|first| + j];
        assert RecordsCall(before, execute, init, earlier, |first|, j);
      }
    }
  }

  // ---------------------------------------------------------------------------------------------
  // What is complete, what is spent

  /** The `j`-th execution returned with its issue marked complete, or undecided with its role's PASS. */
  ghost predicate CompletesIssue(
    before: L.SchedulerState, execute: seq<Attempt> -> Effect, calls: seq<Attempt>, j: nat)
    requires j < |calls|
  {
    var effect := execute(calls[..j + 1]);
    var written := LastWritten(before, execute, calls[..j + 1], calls[j].issue);
    effect.Returned? && (written == Some(L.Completed) || (!Decides(written) && effect.role == Pass))
  }

  ghost predicate CompletedBy(
    before: L.SchedulerState, execute: seq<Attempt> -> Effect, calls: seq<Attempt>, n: Number)
  {
    exists j :: 0 <= j < |calls| && calls[j].issue == n && CompletesIssue(before, execute, calls, j)
  }

  /** Complete in the index, in the state the run started from, or by one of these executions. */
  ghost predicate CompleteAfter(
    cfg: Config, before: L.SchedulerState, execute: seq<Attempt> -> Effect, calls: seq<Attempt>, n: Number)
  {
    || (exists i :: 0 <= i < |cfg.pack| && cfg.pack[i].number == n
          && (cfg.pack[i].completed || (n in before.status && before.status[n] == L.Completed)))
    || CompletedBy(before, execute, calls, n)
  }

  /** The `j`-th execution returned and its issue was not set aside, by cancelling it or for input. */
  ghost predicate Counts(
    before: L.SchedulerState, execute: seq<Attempt> -> Effect, calls: seq<Attempt>, j: nat)
    requires j < |calls|
  {
    var written := LastWritten(before, execute, calls[..j + 1], calls[j].issue);
    execute(calls[..j + 1]).Returned? && written != Some(L.Cancelled) && written != Some(L.WaitingForInput)
  }

  /** The one normal attempt of `n` has been made. */
  ghost predicate NormalSpent(
    cfg: Config, before: L.SchedulerState, execute: seq<Attempt> -> Effect, calls: seq<Attempt>, n: Number)
  {
    if calls == [] then
      || n in before.normalAttempted
      || (ClosesReservation(cfg, before) && before.active.value.issue == n
          && before.active.value.phase == NormalScheduling)
    else
      var last := |calls| - 1;
      || NormalSpent(cfg, before, execute, calls[..last], n)
      || (calls[last].issue == n && calls[last].phase == NormalScheduling && Counts(before, execute, calls, last))
  }

  function Later(round: nat, other: nat): nat {
    if round < other then other else round
  }

  /** The latest Blocker Resolution round of `n` that has been spent. */
  ghost function LastRound(
    cfg: Config, before: L.SchedulerState, execute: seq<Attempt> -> Effect, calls: seq<Attempt>, n: Number): nat
  {
    if calls == [] then
      var kept := if n in before.additionalPasses then before.additionalPasses[n] else 0;
      if ClosesReservation(cfg, before) && before.active.value.issue == n
         && before.active.value.phase != NormalScheduling
      then Later(kept, before.active.value.ordinal) else kept
    else
      var last := |calls| - 1;
      var earlier := LastRound(cfg, before, execute, calls[..last], n);
      if calls[last].issue == n && calls[last].phase != NormalScheduling && Counts(before, execute, calls, last)
      then Later(earlier, calls[last].ordinal) else earlier
  }

  lemma DoneMeans(
    cfg: Config, before: L.SchedulerState, execute: seq<Attempt> -> Effect, calls: seq<Attempt>, n: Number)
    ensures n in After(cfg, Opened(cfg, before), execute, calls).done
       <==> CompleteAfter(cfg, before, execute, calls, n)
  {
    hide After, LastWritten, VerdictOf, Projected;
    DoneIsEarned(cfg, Opened(cfg, before), execute, calls, n);
    forall j | 0 <= j < |calls|
      ensures Completes(cfg, Opened(cfg, before), execute, calls, j) == CompletesIssue(before, execute, calls, j)
    {
      CompletesMeans(cfg, before, execute, calls, j);
    }
    assert n in Opened(cfg, before).done <==>
      exists i :: 0 <= i < |cfg.pack| && cfg.pack[i].number == n
        && (cfg.pack[i].completed || (n in before.status && before.status[n] == L.Completed));
  }

  lemma CompletesMeans(
    cfg: Config, before: L.SchedulerState, execute: seq<Attempt> -> Effect, calls: seq<Attempt>, j: nat)
    requires j < |calls|
    ensures Completes(cfg, Opened(cfg, before), execute, calls, j) == CompletesIssue(before, execute, calls, j)
  {
    hide After, LastWritten, Opened;
    StatusesAfter(cfg, before, execute, calls[..j + 1], calls[j].issue);
  }

  /** What one execution does to the counters, in terms of the status it leaves. */
  lemma ExecutionIsCounted(cfg: Config, s: Session, a: Attempt, e: Effect, n: Number)
    ensures var s' := Advanced(cfg, s, a, e);
      var status := L.StatusOf(s'.state, a.issue);
      var counts := a.issue == n && e.Returned? && status != Some(L.Cancelled) && status != Some(L.WaitingForInput);
      && (n in s'.state.normalAttempted <==>
            n in s.state.normalAttempted || (counts && a.phase == NormalScheduling))
      && Passes(s'.state.additionalPasses, n)
         == if counts && a.phase != NormalScheduling then Later(Passes(s.state.additionalPasses, n), a.ordinal)
            else Passes(s.state.additionalPasses, n)
  {
    hide Projected;
    ProjectedFields(cfg, s.state, s.done);
  }

  lemma {:induction false} CountersMean(
    cfg: Config, before: L.SchedulerState, execute: seq<Attempt> -> Effect, calls: seq<Attempt>, n: Number)
    ensures var st := After(cfg, Opened(cfg, before), execute, calls).state;
      && (n in st.normalAttempted <==> NormalSpent(cfg, before, execute, calls, n))
      && Passes(st.additionalPasses, n) == LastRound(cfg, before, execute, calls, n)
  {
    hide Advanced, LastWritten;
    if calls == [] {
      OpenedCounters(cfg, before, n);
    } else {
      var last := |calls| - 1;
      assert calls[..last + 1] == calls;
      CountersMean(cfg, before, execute, calls[..last], n);
      ExecutionIsCounted(
        cfg, After(cfg, Opened(cfg, before), execute, calls[..last]), calls[last], execute(calls), n);
      StatusesAfter(cfg, before, execute, calls, calls[last].issue);
      hide Opened;
    }
  }

  lemma OpenedCounters(cfg: Config, before: L.SchedulerState, n: Number)
    ensures var st := Opened(cfg, before).state;
      && (n in st.normalAttempted <==>
            || n in before.normalAttempted
            || (ClosesReservation(cfg, before) && before.active.value.issue == n
                && before.active.value.phase == NormalScheduling))
      && Passes(st.additionalPasses, n)
         == (var kept := if n in before.additionalPasses then before.additionalPasses[n] else 0;
             if ClosesReservation(cfg, before) && before.active.value.issue == n
                && before.active.value.phase != NormalScheduling
             then Later(kept, before.active.value.ordinal) else kept)
  {
    ProjectedFields(cfg, before, InitiallyCompleted(cfg.pack, before));
    hide Projected;
  }

  // ---------------------------------------------------------------------------------------------
  // What the next attempt is made of

  /** The issue at `i` is wanted, unfinished, and everything it depends on is complete. */
  ghost predicate Startable(
    cfg: Config, before: L.SchedulerState, execute: seq<Attempt> -> Effect, calls: seq<Attempt>, i: nat)
    requires i < |cfg.pack|
  {
    && cfg.pack[i].number in cfg.selected && !CompleteAfter(cfg, before, execute, calls, cfg.pack[i].number)
    && forall d | d in cfg.pack[i].dependencies :: CompleteAfter(cfg, before, execute, calls, d)
  }

  /** It has never been attempted: nothing was charged, and nothing has been decided about it. */
  ghost predicate Untried(
    cfg: Config, before: L.SchedulerState, execute: seq<Attempt> -> Effect, calls: seq<Attempt>, n: Number)
  {
    !NormalSpent(cfg, before, execute, calls, n) && !Decides(LastWritten(before, execute, calls, n))
  }

  /** It was tried, is not set aside, and has rounds left. */
  ghost predicate RoundsLeft(
    cfg: Config, before: L.SchedulerState, execute: seq<Attempt> -> Effect, calls: seq<Attempt>, n: Number)
  {
    var written := LastWritten(before, execute, calls, n);
    && (NormalSpent(cfg, before, execute, calls, n) || Decides(written))
    && written != Some(L.Cancelled) && written != Some(L.WaitingForInput)
    && cfg.allowBlockerResolution && LastRound(cfg, before, execute, calls, n) < cfg.passes
  }

  /** No startable issue is still untried, up to this place in the index. */
  ghost predicate NoneUntried(
    cfg: Config, before: L.SchedulerState, execute: seq<Attempt> -> Effect, calls: seq<Attempt>, upTo: nat)
    requires upTo <= |cfg.pack|
  {
    forall h | 0 <= h < upTo && Startable(cfg, before, execute, calls, h) ::
      !Untried(cfg, before, execute, calls, cfg.pack[h].number)
  }

  /**
   The attempt due after these executions: the first untried startable issue; when there is none, the
   startable issue with the fewest rounds, the first of them, provided it has rounds left.
   */
  ghost predicate IsDue(
    cfg: Config, before: L.SchedulerState, execute: seq<Attempt> -> Effect, calls: seq<Attempt>, a: Attempt)
  {
    exists i :: 0 <= i < |cfg.pack| && cfg.pack[i].number == a.issue && DueAt(cfg, before, execute, calls, a, i)
  }

  ghost predicate DueAt(
    cfg: Config, before: L.SchedulerState, execute: seq<Attempt> -> Effect, calls: seq<Attempt>, a: Attempt, i: nat)
    requires i < |cfg.pack|
  {
    && Startable(cfg, before, execute, calls, i)
    && ((&& a.phase == NormalScheduling && a.ordinal == 1
         && Untried(cfg, before, execute, calls, a.issue) && NoneUntried(cfg, before, execute, calls, i))
        ||
        (&& a.phase == BlockerResolution && a.ordinal == LastRound(cfg, before, execute, calls, a.issue) + 1
         && RoundsLeft(cfg, before, execute, calls, a.issue) && NoneUntried(cfg, before, execute, calls, |cfg.pack|)
         && forall h | 0 <= h < |cfg.pack| && Startable(cfg, before, execute, calls, h)
                       && RoundsLeft(cfg, before, execute, calls, cfg.pack[h].number) ::
              var round := LastRound(cfg, before, execute, calls, cfg.pack[h].number);
              a.ordinal - 1 < round || (a.ordinal - 1 == round && i <= h)))
  }

  lemma InputMeans(
    cfg: Config, before: L.SchedulerState, execute: seq<Attempt> -> Effect, calls: seq<Attempt>, n: Number)
    ensures var input := InputAfter(cfg, Opened(cfg, before), execute, calls);
      && (n in input.completed <==> CompleteAfter(cfg, before, execute, calls, n))
      && (n in cfg.selected ==> (Fresh(input, n) <==> Untried(cfg, before, execute, calls, n)))
      && (n in cfg.selected ==> (Eligible(input, n) <==> RoundsLeft(cfg, before, execute, calls, n)))
      && Passes(input.additional, n) == LastRound(cfg, before, execute, calls, n)
  {
    DoneMeans(cfg, before, execute, calls, n);
    CountersMean(cfg, before, execute, calls, n);
    StatusesAfter(cfg, before, execute, calls, n);
    hide After, Opened, LastWritten, CompleteAfter, NormalSpent, LastRound;
  }

  lemma StartableMeans(
    cfg: Config, before: L.SchedulerState, execute: seq<Attempt> -> Effect, calls: seq<Attempt>, i: nat)
    requires i < |cfg.pack|
    ensures Ready(InputAfter(cfg, Opened(cfg, before), execute, calls), cfg.pack[i])
       <==> Startable(cfg, before, execute, calls, i)
  {
    var input := InputAfter(cfg, Opened(cfg, before), execute, calls);
    forall n ensures n in input.completed <==> CompleteAfter(cfg, before, execute, calls, n) {
      InputMeans(cfg, before, execute, calls, n);
    }
    assert input.selected == Set(cfg.selected);
    hide InputAfter, CompleteAfter;
  }

  lemma ChosenIsDue(
    cfg: Config, before: L.SchedulerState, execute: seq<Attempt> -> Effect, calls: seq<Attempt>, a: Attempt)
    requires UniqueNumbers(cfg.pack)
    requires Chosen(cfg.pack, InputAfter(cfg, Opened(cfg, before), execute, calls), a)
    ensures IsDue(cfg, before, execute, calls, a)
  {
    var input := InputAfter(cfg, Opened(cfg, before), execute, calls);
    forall h | 0 <= h < |cfg.pack|
      ensures Ready(input, cfg.pack[h]) <==> Startable(cfg, before, execute, calls, h)
      ensures cfg.pack[h].number in cfg.selected ==>
        && (Fresh(input, cfg.pack[h].number) <==> Untried(cfg, before, execute, calls, cfg.pack[h].number))
        && (Eligible(input, cfg.pack[h].number) <==> RoundsLeft(cfg, before, execute, calls, cfg.pack[h].number))
      ensures Passes(input.additional, cfg.pack[h].number)
           == LastRound(cfg, before, execute, calls, cfg.pack[h].number)
      ensures Startable(cfg, before, execute, calls, h) ==> IsReadyNumber(cfg.pack, input, cfg.pack[h].number)
    {
      StartableMeans(cfg, before, execute, calls, h);
      InputMeans(cfg, before, execute, calls, cfg.pack[h].number);
    }
    hide InputAfter, Ready, Fresh, Eligible, Passes, Untried, RoundsLeft, LastRound;
    var i :| 0 <= i < |cfg.pack| && cfg.pack[i].number == a.issue && Ready(input, cfg.pack[i]);
    assert DueAt(cfg, before, execute, calls, a, i);
  }

  // ---------------------------------------------------------------------------------------------
  // A run

  /** The attempts of a run: the reservation it started with, and otherwise the one that is due. */
  ghost predicate AttemptsAreDue(cfg: Config, execute: seq<Attempt> -> Effect, run: Run) {
    forall k | 0 <= k < |run.calls| ::
      if k == 0 && run.before.active.Some? && !ClosesReservation(cfg, run.before)
      then Some(run.calls[0]) == run.before.active
      else IsDue(cfg, run.before, execute, run.calls[..k], run.calls[k])
  }

  /** The counters and the statuses the run leaves. */
  ghost predicate LeavesCounters(cfg: Config, execute: seq<Attempt> -> Effect, run: Run) {
    forall n ::
      && (n in run.after.normalAttempted <==> NormalSpent(cfg, run.before, execute, run.calls, n))
      && Passes(run.after.additionalPasses, n) == LastRound(cfg, run.before, execute, run.calls, n)
      && Shows(L.StatusOf(run.after, n), LastWritten(run.before, execute, run.calls, n))
  }

  /** The blockers are the startable issues, the others wait, each for exactly what it lacks, and no attempt is left. */
  ghost predicate ReportsWhatIsLeft(
    cfg: Config, execute: seq<Attempt> -> Effect, run: Run, blockers: seq<Number>, waiting: map<Number, seq<Number>>)
  {
    && (forall i | 0 <= i < |cfg.pack| ::
          && (Startable(cfg, run.before, execute, run.calls, i) <==> cfg.pack[i].number in blockers)
          && (Startable(cfg, run.before, execute, run.calls, i) ==>
                && !Untried(cfg, run.before, execute, run.calls, cfg.pack[i].number)
                && !RoundsLeft(cfg, run.before, execute, run.calls, cfg.pack[i].number))
          && LacksExactly(cfg, execute, run, waiting, i))
    && exists n :: n in cfg.selected && !CompleteAfter(cfg, run.before, execute, run.calls, n)
  }

  ghost predicate LacksExactly(
    cfg: Config, execute: seq<Attempt> -> Effect, run: Run, waiting: map<Number, seq<Number>>, i: nat)
    requires i < |cfg.pack|
  {
    var issue := cfg.pack[i];
    && (issue.number in waiting <==>
          && issue.number in cfg.selected && !CompleteAfter(cfg, run.before, execute, run.calls, issue.number)
          && exists d :: d in issue.dependencies && !CompleteAfter(cfg, run.before, execute, run.calls, d))
    && (issue.number in waiting ==> forall d ::
          d in waiting[issue.number]
          <==> d in issue.dependencies && !CompleteAfter(cfg, run.before, execute, run.calls, d))
  }

  /** What happened in a run: nothing is said here in terms of the loop's own decisions. */
  ghost predicate RunMeans(cfg: Config, execute: seq<Attempt> -> Effect, run: Run) {
    && AttemptsAreDue(cfg, execute, run)
    && Records(
         run.before, execute, run.calls, HistoryAtStart(cfg, run.before), run.after.history, ReturnedCalls(run))
    && LeavesCounters(cfg, execute, run)
    && match run.result
       case Done => forall n | n in cfg.selected :: CompleteAfter(cfg, run.before, execute, run.calls, n)
       case Unresolved(blockers, waiting) => ReportsWhatIsLeft(cfg, execute, run, blockers, waiting)
       case Paused => run.calls != [] && execute(run.calls).Interrupted?
       case InvalidActiveAttempt =>
         run.calls == [] && run.before.active.Some? && run.before.active.value.issue !in cfg.selected
  }

  /** Every run of the driver is such a run. */
  lemma RunsMeanThis(cfg: Config, execute: seq<Attempt> -> Effect, run: Run)
    requires UniqueNumbers(cfg.pack) && IsRun(cfg, execute, run)
    ensures RunMeans(cfg, execute, run)
  {
    hide IsRun, AttemptsAreDue, Records, LeavesCounters, ReportsWhatIsLeft, HistoryAtStart, ReturnedCalls, CompleteAfter;
    DueThroughout(cfg, execute, run);
    RecordedThroughout(cfg, execute, run);
    CountersLeft(cfg, execute, run);
    ResultMeans(cfg, execute, run);
  }

  lemma DueThroughout(cfg: Config, execute: seq<Attempt> -> Effect, run: Run)
    requires UniqueNumbers(cfg.pack) && IsRun(cfg, execute, run)
    ensures AttemptsAreDue(cfg, execute, run)
  {
    hide IsRun, Chosen, IsDue, InputAfter;
    OpenedReservation(cfg, run.before);
    hide Opened;
    forall k | 0 <= k < |run.calls|
      ensures if k == 0 && run.before.active.Some? && !ClosesReservation(cfg, run.before)
              then Some(run.calls[0]) == run.before.active
              else IsDue(cfg, run.before, execute, run.calls[..k], run.calls[k])
    {
      AttemptIsCalled(cfg, execute, run, k);
      if ReservedAt(cfg, run, k).None? {
        ChosenIsDue(cfg, run.before, execute, run.calls[..k], run.calls[k]);
      }
    }
  }

  lemma OpenedReservation(cfg: Config, before: L.SchedulerState)
    ensures Opened(cfg, before).state.active == if ClosesReservation(cfg, before) then None else before.active
  {
    ProjectedFields(cfg, before, InitiallyCompleted(cfg.pack, before));
    hide Projected;
  }

  lemma RecordedThroughout(cfg: Config, execute: seq<Attempt> -> Effect, run: Run)
    requires IsRun(cfg, execute, run)
    ensures Records(
      run.before, execute, run.calls, HistoryAtStart(cfg, run.before), run.after.history, ReturnedCalls(run))
  {
    hide Opened, WellChosen, NoAttemptTwice, IsCut, Turns, LastWritten, IsOutcome, Described;
    var returned, calls := ReturnedCalls(run), run.calls;
    var some := calls[..returned];
    forall j | 0 <= j < returned ensures EffectAt(execute, some, j).Returned? && some[j] == calls[j] && some[..j + 1] == calls[..j + 1]
    {
      assert EffectAt(execute, calls, j) == EffectAt(execute, some, j) by {
        assert some[..j + 1] == calls[..j + 1];
      }
      assert !EffectAt(execute, calls, j).Interrupted?;
    }
    HistoryAfter(cfg, run.before, execute, some);
    HistoryLeft(cfg, execute, run);
    var first := HistoryAtStart(cfg, run.before);
    forall j | 0 <= j < returned ensures RecordsCall(run.before, execute, calls, run.after.history, |first|, j) {
      assert RecordsCall(run.before, execute, some, run.after.history, |first|, j);
    }
  }

  /** Neither an interruption nor a projection adds to the history. */
  lemma HistoryLeft(cfg: Config, execute: seq<Attempt> -> Effect, run: Run)
    requires IsRun(cfg, execute, run)
    ensures run.after.history
         == After(cfg, Opened(cfg, run.before), execute, run.calls[..ReturnedCalls(run)]).state.history
  {
    hide Opened, WellChosen, NoAttemptTwice, IsCut, Turns, Projected;
    var end := End(cfg, execute, run);
    ProjectedFields(cfg, end.state, end.done);
    if run.result.Paused? {
      var last := |run.calls| - 1;
      var s := After(cfg, Opened(cfg, run.before), execute, run.calls[..last]);
      assert EffectAt(execute, run.calls, last).Interrupted? && run.calls[..last + 1] == run.calls;
      ProjectedFields(cfg, s.state, s.done);
    } else {
      assert run.calls[..|run.calls|] == run.calls;
    }
  }

  lemma CountersLeft(cfg: Config, execute: seq<Attempt> -> Effect, run: Run)
    requires IsRun(cfg, execute, run)
    ensures LeavesCounters(cfg, execute, run)
  {
    hide Opened, WellChosen, NoAttemptTwice, IsCut, Turns, Projected, After, LastWritten, LastRound, NormalSpent;
    var end := End(cfg, execute, run);
    ProjectedFields(cfg, end.state, end.done);
    forall n
      ensures n in run.after.normalAttempted <==> NormalSpent(cfg, run.before, execute, run.calls, n)
      ensures Passes(run.after.additionalPasses, n) == LastRound(cfg, run.before, execute, run.calls, n)
      ensures Shows(L.StatusOf(run.after, n), LastWritten(run.before, execute, run.calls, n))
    {
      CountersMean(cfg, run.before, execute, run.calls, n);
      StatusesAfter(cfg, run.before, execute, run.calls, n);
      ProjectionIsShown(cfg, end, n, LastWritten(run.before, execute, run.calls, n));
    }
  }

  lemma ProjectionIsShown(cfg: Config, s: Session, n: Number, written: Option<L.IssueStatus>)
    requires Shows(L.StatusOf(s.state, n), written)
    ensures Shows(L.StatusOf(Projected(cfg, s.state, s.done), n), written)
  {
    ProjectedStatuses(cfg, s.state, s.done, n);
    hide Projected;
  }

  lemma ResultMeans(cfg: Config, execute: seq<Attempt> -> Effect, run: Run)
    requires UniqueNumbers(cfg.pack) && IsRun(cfg, execute, run)
    ensures match run.result
      case Done => forall n | n in cfg.selected :: CompleteAfter(cfg, run.before, execute, run.calls, n)
      case Unresolved(blockers, waiting) => ReportsWhatIsLeft(cfg, execute, run, blockers, waiting)
      case Paused => run.calls != [] && execute(run.calls).Interrupted?
      case InvalidActiveAttempt =>
        run.calls == [] && run.before.active.Some? && run.before.active.value.issue !in cfg.selected
  {
    hide Opened, WellChosen, NoAttemptTwice, IsCut, Turns, Projected, After, CompleteAfter, ReportsWhatIsLeft, Described;
    match run.result {
      case Done =>
        forall n | n in cfg.selected ensures CompleteAfter(cfg, run.before, execute, run.calls, n) {
          assert n in Set(cfg.selected);
          DoneMeans(cfg, run.before, execute, run.calls, n);
        }
      case Unresolved(blockers, waiting) =>
        CutMeans(cfg, execute, run, blockers, waiting);
      case Paused =>
        assert EffectAt(execute, run.calls, |run.calls| - 1).Interrupted?;
        assert run.calls[..|run.calls| - 1 + 1] == run.calls;
      case InvalidActiveAttempt =>
    }
  }

  lemma CutMeans(
    cfg: Config, execute: seq<Attempt> -> Effect, run: Run, blockers: seq<Number>, waiting: map<Number, seq<Number>>)
    requires UniqueNumbers(cfg.pack)
    requires var end := End(cfg, execute, run); IsCut(cfg, Described(cfg, end.state, end.done), blockers, waiting)
    ensures ReportsWhatIsLeft(cfg, execute, run, blockers, waiting)
  {
    var before, calls := run.before, run.calls;
    var input := InputAfter(cfg, Opened(cfg, before), execute, calls);
    InputOfEnd(cfg, execute, run);
    forall n ensures n in input.completed <==> CompleteAfter(cfg, before, execute, calls, n) {
      InputMeans(cfg, before, execute, calls, n);
    }
    forall i | 0 <= i < |cfg.pack|
      ensures Ready(input, cfg.pack[i]) <==> Startable(cfg, before, execute, calls, i)
      ensures cfg.pack[i].number in cfg.selected ==>
        && (Fresh(input, cfg.pack[i].number) <==> Untried(cfg, before, execute, calls, cfg.pack[i].number))
        && (Eligible(input, cfg.pack[i].number) <==> RoundsLeft(cfg, before, execute, calls, cfg.pack[i].number))
    {
      StartableMeans(cfg, before, execute, calls, i);
      InputMeans(cfg, before, execute, calls, cfg.pack[i].number);
    }
    CutIsUnfinished(cfg, input, blockers, waiting);
    hide InputAfter, CompleteAfter, Untried, RoundsLeft, DependsOn;
    CutReports(cfg, execute, run, input, blockers, waiting);
  }

  lemma CutReports(
    cfg: Config, execute: seq<Attempt> -> Effect, run: Run, input: Inputs, blockers: seq<Number>,
    waiting: map<Number, seq<Number>>)
    requires UniqueNumbers(cfg.pack) && IsCut(cfg, input, blockers, waiting) && input.selected == Set(cfg.selected)
    requires forall n :: n in input.completed <==> CompleteAfter(cfg, run.before, execute, run.calls, n)
    requires forall i | 0 <= i < |cfg.pack| ::
      && (Ready(input, cfg.pack[i]) <==> Startable(cfg, run.before, execute, run.calls, i))
      && (cfg.pack[i].number in cfg.selected ==>
        && (Fresh(input, cfg.pack[i].number) <==> Untried(cfg, run.before, execute, run.calls, cfg.pack[i].number))
        && (Eligible(input, cfg.pack[i].number) <==>
              RoundsLeft(cfg, run.before, execute, run.calls, cfg.pack[i].number)))
    ensures ReportsWhatIsLeft(cfg, execute, run, blockers, waiting)
  {
    hide CompleteAfter, Untried, RoundsLeft, DependsOn, Startable, Passes, WaitingIsExact;
    var unfinished := blockers[0];
    assert unfinished in blockers && IsReadyNumber(cfg.pack, input, unfinished);
    assert unfinished in cfg.selected && !CompleteAfter(cfg, run.before, execute, run.calls, unfinished);
    forall i | 0 <= i < |cfg.pack|
      ensures Startable(cfg, run.before, execute, run.calls, i) <==> cfg.pack[i].number in blockers
      ensures Startable(cfg, run.before, execute, run.calls, i) ==>
        && !Untried(cfg, run.before, execute, run.calls, cfg.pack[i].number)
        && !RoundsLeft(cfg, run.before, execute, run.calls, cfg.pack[i].number)
      ensures LacksExactly(cfg, execute, run, waiting, i)
    {
      ReadyNumberAt(cfg.pack, input, i);
      WaitingLacks(cfg, execute, run, input, waiting, i);
    }
  }

  lemma ReadyNumberAt(pack: Pack, input: Inputs, i: nat)
    requires UniqueNumbers(pack) && i < |pack|
    ensures IsReadyNumber(pack, input, pack[i].number) <==> Ready(input, pack[i])
  {
    hide Ready;
  }

  lemma WaitingLacks(
    cfg: Config, execute: seq<Attempt> -> Effect, run: Run, input: Inputs, waiting: map<Number, seq<Number>>, i: nat)
    requires UniqueNumbers(cfg.pack) && i < |cfg.pack| && input.selected == Set(cfg.selected)
    requires WaitingIsExact(cfg.pack, input, waiting, |cfg.pack|)
    requires forall n :: n in input.completed <==> CompleteAfter(cfg, run.before, execute, run.calls, n)
    ensures LacksExactly(cfg, execute, run, waiting, i)
  {
    WaitingAt(cfg.pack, input, waiting, i);
    hide CompleteAfter, WaitingIsExact, UniqueNumbers;
    var issue := cfg.pack[i];
    assert issue.number in input.selected <==> issue.number in cfg.selected;
  }

  lemma WaitingAt(pack: Pack, input: Inputs, waiting: map<Number, seq<Number>>, i: nat)
    requires UniqueNumbers(pack) && i < |pack| && WaitingIsExact(pack, input, waiting, |pack|)
    ensures pack[i].number in waiting <==> Waiting(input, pack[i])
    ensures pack[i].number in waiting ==>
      forall d :: d in waiting[pack[i].number] <==> d in pack[i].dependencies && d !in input.completed
  {
    hide Waiting;
    if pack[i].number in waiting {
      var k :| 0 <= k < |pack| && pack[k].number == pack[i].number && Waiting(input, pack[k]);
      assert k == i;
    }
  }
}
