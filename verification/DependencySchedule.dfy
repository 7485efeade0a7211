/**
 The driver loop over the scheduler's projections (src/devloop/cli.py:150-335).

 What an executed issue does is an arbitrary function of the attempts made so far, so every claim
 about a run holds against every behaviour of the workers.
 */
module DependencySchedule {
  import opened Wrappers
  import opened IssueGraph
  import opened IssueScheduler
  import L = LoopState

  datatype RoleStatus = Pass | Fail | Blocked | Other

  /** One execution: the issue's persisted status afterwards (if it changed), and how the call ended. */
  datatype Effect =
    | Interrupted(status: Option<L.IssueStatus>)
    | Returned(status: Option<L.IssueStatus>, role: RoleStatus)

  datatype Config = Config(
    pack: Pack,
    selected: seq<Number>,
    allowBlockerResolution: bool,
    passes: nat)

  datatype ScheduleResult =
    | Done
    | Unresolved(blockers: seq<Number>, waiting: map<Number, seq<Number>>)
    | Paused
    | InvalidActiveAttempt

  /** One executed attempt together with the inputs of the projection that preceded it. */
  datatype Turn = Turn(input: Inputs, call: Attempt)

  /** What the loop carries from one iteration to the next. */
  datatype Session = Session(state: L.SchedulerState, done: set<Number>)

  function Set(s: seq<Number>): set<Number> {
    set n | n in s
  }

  predicate Charges(status: Option<L.IssueStatus>) {
    status in {Some(L.Blocked), Some(L.Failed), Some(L.ChangesRequested),
               Some(L.Completed), Some(L.Cancelled), Some(L.WaitingForInput)}
  }

  predicate Retryable(st: L.SchedulerState, n: Number) {
    L.StatusOf(st, n) !in {Some(L.Cancelled), Some(L.WaitingForInput)}
  }

  function InitiallyCompleted(pack: Pack, st: L.SchedulerState): set<Number> {
    set i | 0 <= i < |pack| && (pack[i].completed || L.StatusOf(st, pack[i].number) == Some(L.Completed))
      :: pack[i].number
  }

  /** Whether an execution spends its attempt, and the outcome it is recorded with. */
  datatype Verdict = Verdict(outcome: L.IssueStatus, consumed: bool)

  function VerdictOf(persisted: Option<L.IssueStatus>, role: RoleStatus): Verdict {
    match persisted
    case Some(Cancelled) => Verdict(L.Cancelled, false)
    case Some(WaitingForInput) => Verdict(L.WaitingForInput, false)
    case Some(Completed) => Verdict(L.Completed, true)
    case Some(ChangesRequested) => Verdict(L.ChangesRequested, true)
    case Some(Blocked) => Verdict(L.Blocked, true)
    case Some(Failed) => Verdict(L.Failed, true)
    case _ =>
      match role
      case Pass => Verdict(L.Completed, true)
      case Fail => Verdict(L.Failed, true)
      case _ => Verdict(L.Blocked, true)
  }

  function WithStatus(st: L.SchedulerState, n: Number, status: Option<L.IssueStatus>): L.SchedulerState {
    if status.None? then st else st.(status := st.status[n := status.value])
  }

  /** The state in which a returned attempt leaves the writer. */
  function Ended(st: L.SchedulerState, a: Attempt, status: Option<L.IssueStatus>, role: RoleStatus)
    : L.SchedulerState
    requires st.active == Some(a)
  {
    var executed := WithStatus(st, a.issue, status);
    var verdict := VerdictOf(L.StatusOf(executed, a.issue), role);
    if verdict.consumed then L.Consumed(executed, a.issue, verdict.outcome).value
    else L.Released(executed, a.issue, verdict.outcome).value
  }

  // ---------------------------------------------------------------------------------------------
  // Termination: what is left to spend

  /** The normal attempt, the remaining passes, and the possibility of being set aside for input. */
  ghost function Potential(st: L.SchedulerState, done: set<Number>, passes: nat, n: Number): nat {
    if n in done then 0
    else
      (if n in st.normalAttempted then 0 else 1)
      + (var used := Passes(st.additionalPasses, n); if used < passes then passes - used else 0)
      + (if Retryable(st, n) then 1 else 0)
  }

  ghost function Total(cfg: Config, st: L.SchedulerState, done: set<Number>, upTo: nat): nat
    requires upTo <= |cfg.pack|
  {
    if upTo == 0 then 0
    else
      var n := cfg.pack[upTo - 1].number;
      Total(cfg, st, done, upTo - 1) + if n in cfg.selected then Potential(st, done, cfg.passes, n) else 0
  }

  ghost function Measure(cfg: Config, st: L.SchedulerState, done: set<Number>): nat {
    Total(cfg, st, done, |cfg.pack|) + if st.active.Some? then 2 else 0
  }

  /** When only the potential of `n` may rise, and by `delta` at most, so does the total. */
  lemma {:induction false} TotalShift(
    cfg: Config, st: L.SchedulerState, done: set<Number>, st': L.SchedulerState, done': set<Number>,
    n: Number, delta: int, upTo: nat)
    requires UniqueNumbers(cfg.pack) && upTo <= |cfg.pack|
    requires forall m | m != n :: Potential(st', done', cfg.passes, m) <= Potential(st, done, cfg.passes, m)
    requires Potential(st', done', cfg.passes, n) <= Potential(st, done, cfg.passes, n) + delta
    ensures Total(cfg, st', done', upTo)
         <= Total(cfg, st, done, upTo) + if n in cfg.selected && n in Numbers(cfg.pack[..upTo]) then delta else 0
  {
    if upTo > 0 {
      TotalShift(cfg, st, done, st', done', n, delta, upTo - 1);
      var last := cfg.pack[upTo - 1].number;
      assert Numbers(cfg.pack[..upTo]) == Numbers(cfg.pack[..upTo - 1]) + {last} by {
        assert forall i | 0 <= i < upTo :: cfg.pack[..upTo][i] == cfg.pack[i];
        assert forall i | 0 <= i < upTo - 1 :: cfg.pack[..upTo - 1][i] == cfg.pack[..upTo][i];
        assert cfg.pack[..upTo][upTo - 1].number == last;
      }
      assert last !in Numbers(cfg.pack[..upTo - 1]);
    }
  }

  /** `later` can be reached from `earlier` without touching what the budget is reckoned from. */
  ghost predicate SameBudget(earlier: L.SchedulerState, later: L.SchedulerState) {
    && later.normalAttempted == earlier.normalAttempted
    && later.additionalPasses == earlier.additionalPasses
    && later.history == earlier.history
    && forall n :: Retryable(later, n) == Retryable(earlier, n)
  }

  lemma ProjectingKeepsBudget(cfg: Config, st: L.SchedulerState, done: set<Number>)
    ensures SameBudget(st, Projected(cfg, st, done))
    ensures forall n ::
      L.StatusOf(Projected(cfg, st, done), n) == Some(L.Completed) <==> L.StatusOf(st, n) == Some(L.Completed)
  {
    hide IsReadyNumber, IsWaitingNumber;
    forall n ensures L.StatusOf(Projected(cfg, st, done), n) == StatusShown(cfg, st, Described(cfg, st, done), n) {
      ProjectedStatuses(cfg, st, done, n);
    }
  }

  /** The effect of one ended attempt on everything the budget is reckoned from. */
  ghost predicate Spends(st: L.SchedulerState, st': L.SchedulerState, a: Attempt) {
    && st'.active.None?
    && (forall n | n != a.issue ::
          && Retryable(st', n) == Retryable(st, n)
          && (n in st'.normalAttempted <==> n in st.normalAttempted)
          && Passes(st'.additionalPasses, n) == Passes(st.additionalPasses, n))
    && (a.issue in st.normalAttempted ==> a.issue in st'.normalAttempted)
    && Passes(st.additionalPasses, a.issue) <= Passes(st'.additionalPasses, a.issue)
    && (Passes(st'.additionalPasses, a.issue) == Passes(st.additionalPasses, a.issue)
        || (a.phase != NormalScheduling && Passes(st'.additionalPasses, a.issue) == a.ordinal))
    && Settled(st', a)
  }

  /** The attempt can never be scheduled again: it is spent, or its issue has been set aside. */
  predicate Settled(st: L.SchedulerState, a: Attempt) {
    || !Retryable(st, a.issue)
    || (if a.phase == NormalScheduling then a.issue in st.normalAttempted
        else a.ordinal <= Passes(st.additionalPasses, a.issue))
  }

  lemma EndingSpends(st: L.SchedulerState, a: Attempt, status: Option<L.IssueStatus>, role: RoleStatus)
    requires st.active == Some(a)
    ensures Spends(st, Ended(st, a, status, role), a)
  {
  }

  /** A freshly chosen attempt, once ended, leaves strictly less to spend. */
  lemma ChosenAttemptDrops(
    cfg: Config, st: L.SchedulerState, done: set<Number>, st': L.SchedulerState, done': set<Number>,
    input: Inputs, a: Attempt)
    requires UniqueNumbers(cfg.pack) && st.active.None?
    requires Chosen(cfg.pack, input, a) && input == Described(cfg, st, done)
    requires Spends(st, st', a) && done <= done'
    ensures Measure(cfg, st', done') < Measure(cfg, st, done)
  {
    var n := a.issue;
    assert n in cfg.selected && n in Numbers(cfg.pack);
    assert cfg.pack[..|cfg.pack|] == cfg.pack;
    assert Retryable(st, n);
    assert Potential(st', done', cfg.passes, n) <= Potential(st, done, cfg.passes, n) - 1;
    TotalShift(cfg, st, done, st', done', n, -1, |cfg.pack|);
  }

  /** A resumed attempt may revive an issue, but then the reservation itself is gone. */
  lemma ResumedAttemptDrops(
    cfg: Config, st: L.SchedulerState, done: set<Number>, st': L.SchedulerState, done': set<Number>, a: Attempt)
    requires UniqueNumbers(cfg.pack) && st.active == Some(a)
    requires Spends(st, st', a) && done <= done'
    ensures Measure(cfg, st', done') < Measure(cfg, st, done)
  {
    TotalShift(cfg, st, done, st', done', a.issue, 1, |cfg.pack|);
  }

  lemma SameBudgetSameMeasure(cfg: Config, st: L.SchedulerState, st': L.SchedulerState, done: set<Number>)
    requires UniqueNumbers(cfg.pack) && SameBudget(st, st') && st.active == st'.active
    ensures Measure(cfg, st', done) == Measure(cfg, st, done)
  {
    TotalShift(cfg, st, done, st', done, "", 0, |cfg.pack|);
    TotalShift(cfg, st', done, st, done, "", 0, |cfg.pack|);
  }

  // ---------------------------------------------------------------------------------------------
  // The inputs of a projection, and what recording it does

  function Attempted(cfg: Config, st: L.SchedulerState): set<Number> {
    st.normalAttempted + set n | n in cfg.selected && Charges(L.StatusOf(st, n))
  }

  function NonRetryable(cfg: Config, st: L.SchedulerState): set<Number> {
    set n | n in cfg.selected && !Retryable(st, n)
  }

  /** What the loop derives from the writer and the session's completed issues. */
  function Described(cfg: Config, st: L.SchedulerState, done: set<Number>): Inputs {
    Inputs(
      Set(cfg.selected), done, Attempted(cfg, st), st.additionalPasses, NonRetryable(cfg, st),
      cfg.allowBlockerResolution, cfg.passes)
  }

  ghost function StatusShown(cfg: Config, st: L.SchedulerState, input: Inputs, n: Number): Option<L.IssueStatus> {
    if n !in cfg.selected then L.StatusOf(st, n)
    else L.ProjectedStatus(
      L.StatusOf(st, n), IsReadyNumber(cfg.pack, input, n), IsWaitingNumber(cfg.pack, input, n))
  }

  /** The writer's state once the projection of these inputs has been recorded. */
  ghost function Projected(cfg: Config, st: L.SchedulerState, done: set<Number>): L.SchedulerState {
    var input := Described(cfg, st, done);
    st.(status := map n | n in st.status.Keys + Set(cfg.selected) && StatusShown(cfg, st, input, n).Some?
                    :: StatusShown(cfg, st, input, n).value)
  }

  lemma ProjectedStatuses(cfg: Config, st: L.SchedulerState, done: set<Number>, n: Number)
    ensures L.StatusOf(Projected(cfg, st, done), n) == StatusShown(cfg, st, Described(cfg, st, done), n)
  {
    hide IsReadyNumber, IsWaitingNumber, Described;
  }

  method Derive(cfg: Config, st: L.SchedulerState) returns (attempted: set<Number>, nonRetryable: set<Number>)
    ensures attempted == Attempted(cfg, st) && nonRetryable == NonRetryable(cfg, st)
  {
    attempted, nonRetryable := st.normalAttempted, {};
    for i := 0 to |cfg.selected|
      invariant attempted == st.normalAttempted + set n | n in cfg.selected[..i] && Charges(L.StatusOf(st, n))
      invariant nonRetryable == set n | n in cfg.selected[..i] && !Retryable(st, n)
    {
      var n := cfg.selected[i];
      assert cfg.selected[..i + 1] == cfg.selected[..i] + [n];
      if Charges(L.StatusOf(st, n)) {
        attempted := attempted + {n};
      }
      if !Retryable(st, n) {
        nonRetryable := nonRetryable + {n};
      }
    }
    assert cfg.selected[..|cfg.selected|] == cfg.selected;
  }

  function AttemptedReady(pack: Pack, ready: seq<nat>, attempted: set<Number>): (r: seq<Number>)
    requires forall k | k in ready :: k < |pack|
    ensures forall n :: n in r <==> n in attempted && exists k :: k in ready && pack[k].number == n
  {
    if ready == [] then []
    else
      var init, last := ready[..|ready| - 1], ready[|ready| - 1];
      assert ready == init + [last] && last in ready;
      assert forall k | k in init :: k in ready;
      AttemptedReady(pack, init, attempted)
      + if pack[last].number in attempted then [pack[last].number] else []
  }

  // ---------------------------------------------------------------------------------------------
  // The course of a run, as a function of its executions

  /** A reservation whose issue turned out complete before the run is closed without an execution. */
  predicate Settles(cfg: Config, st: L.SchedulerState) {
    && st.active.Some? && st.active.value.issue in cfg.selected
    && L.StatusOf(st, st.active.value.issue) == Some(L.Completed)
  }

  /** Where a run starts from. */
  ghost function Opened(cfg: Config, st: L.SchedulerState): Session {
    var done := InitiallyCompleted(cfg.pack, st);
    if Settles(cfg, st)
    then Session(L.Consumed(Projected(cfg, st, done), st.active.value.issue, L.Completed).value, done)
    else Session(st, done)
  }

  /** The session once `a` has been reserved and executed, with this effect. */
  ghost function Advanced(cfg: Config, s: Session, a: Attempt, e: Effect): Session {
    var reserved := Projected(cfg, s.state, s.done).(active := Some(a));
    match e
    case Interrupted(status) => Session(WithStatus(reserved, a.issue, status), s.done)
    case Returned(status, role) =>
      var outcome := VerdictOf(L.StatusOf(WithStatus(reserved, a.issue, status), a.issue), role).outcome;
      Session(Ended(reserved, a, status, role), if outcome == L.Completed then s.done + {a.issue} else s.done)
  }

  /** The session after these executions. */
  ghost function After(
    cfg: Config, start: Session, execute: seq<Attempt> -> Effect, calls: seq<Attempt>): Session
  {
    if calls == [] then start
    else
      Advanced(
        cfg, After(cfg, start, execute, calls[..|calls| - 1]), calls[|calls| - 1], execute(calls))
  }

  /** The inputs of the projection that follows these executions. */
  ghost function InputAfter(
    cfg: Config, start: Session, execute: seq<Attempt> -> Effect, calls: seq<Attempt>): Inputs
  {
    var s := After(cfg, start, execute, calls);
    Described(cfg, s.state, s.done)
  }

  ghost function TurnsOf(
    cfg: Config, start: Session, execute: seq<Attempt> -> Effect, calls: seq<Attempt>): seq<Turn>
  {
    seq(|calls|, k requires 0 <= k < |calls| => Turn(InputAfter(cfg, start, execute, calls[..k]), calls[k]))
  }

  lemma OneMore(
    cfg: Config, start: Session, execute: seq<Attempt> -> Effect, calls: seq<Attempt>, a: Attempt)
    ensures After(cfg, start, execute, calls + [a])
         == Advanced(cfg, After(cfg, start, execute, calls), a, execute(calls + [a]))
    ensures TurnsOf(cfg, start, execute, calls + [a])
         == TurnsOf(cfg, start, execute, calls) + [Turn(InputAfter(cfg, start, execute, calls), a)]
  {
    hide Advanced, InputAfter;
    assert (calls + [a])[..|calls|] == calls;
    assert forall k | 0 <= k < |calls| :: (calls + [a])[..k] == calls[..k];
  }

  function EffectAt(execute: seq<Attempt> -> Effect, calls: seq<Attempt>, j: nat): Effect
    requires j < |calls|
  {
    execute(calls[..j + 1])
  }

  /** The `j`-th execution completed its issue: by the status it left behind, or else by its role's PASS. */
  ghost predicate Completes(
    cfg: Config, start: Session, execute: seq<Attempt> -> Effect, calls: seq<Attempt>, j: nat)
    requires j < |calls|
  {
    var effect := EffectAt(execute, calls, j);
    var status := L.StatusOf(After(cfg, start, execute, calls[..j + 1]).state, calls[j].issue);
    effect.Returned? && VerdictOf(status, effect.role).outcome == L.Completed
  }

  /** The session's completed issues are those complete at the start and those its executions completed. */
  lemma {:induction false} DoneIsEarned(
    cfg: Config, start: Session, execute: seq<Attempt> -> Effect, calls: seq<Attempt>, n: Number)
    ensures n in After(cfg, start, execute, calls).done
       <==> n in start.done
            || exists j :: 0 <= j < |calls| && calls[j].issue == n && Completes(cfg, start, execute, calls, j)
  {
    hide Advanced, VerdictOf, Completes;
    if calls == [] {
    } else {
      var last := |calls| - 1;
      var init := calls[..last];
      DoneIsEarned(cfg, start, execute, init, n);
      forall j | 0 <= j < last
        ensures init[j] == calls[j]
        ensures Completes(cfg, start, execute, init, j) == Completes(cfg, start, execute, calls, j)
      {
        PrefixCompletes(cfg, start, execute, calls, j);
      }
      LastAdds(cfg, start, execute, calls);
    }
  }

  lemma PrefixCompletes(
    cfg: Config, start: Session, execute: seq<Attempt> -> Effect, calls: seq<Attempt>, j: nat)
    requires j < |calls| - 1
    ensures Completes(cfg, start, execute, calls[..|calls| - 1], j) == Completes(cfg, start, execute, calls, j)
  {
    hide After, VerdictOf;
    var init := calls[..|calls| - 1];
    assert init[..j + 1] == calls[..j + 1] && init[j] == calls[j];
  }

  /** The last execution adds exactly its issue, exactly when it completes it. */
  lemma LastAdds(cfg: Config, start: Session, execute: seq<Attempt> -> Effect, calls: seq<Attempt>)
    requires calls != []
    ensures After(cfg, start, execute, calls).done
         == After(cfg, start, execute, calls[..|calls| - 1]).done
            + if Completes(cfg, start, execute, calls, |calls| - 1) then {calls[|calls| - 1].issue} else {}
  {
    hide Advanced, VerdictOf;
    var last := |calls| - 1;
    assert calls[..last + 1] == calls;
    LastCompletes(cfg, After(cfg, start, execute, calls[..last]), calls[last], execute(calls));
  }

  lemma LastCompletes(cfg: Config, s: Session, a: Attempt, e: Effect)
    ensures var s' := Advanced(cfg, s, a, e);
            s'.done == s.done
              + if e.Returned? && VerdictOf(L.StatusOf(s'.state, a.issue), e.role).outcome == L.Completed
                then {a.issue} else {}
  {
    hide Projected;
  }

  // ---------------------------------------------------------------------------------------------
  // Claims about a whole run

  /** The attempt the loop makes of these inputs: the one already reserved, or the one they call for. */
  ghost predicate Called(cfg: Config, input: Inputs, reserved: Option<Attempt>, a: Attempt) {
    if reserved.Some? then a == reserved.value && !(input.selected <= input.completed)
    else Chosen(cfg.pack, input, a)
  }

  /** A reservation is resumed first; every other attempt is the one its projection calls for. */
  ghost predicate WellChosen(cfg: Config, turns: seq<Turn>, resumed: Option<Attempt>) {
    forall k | 0 <= k < |turns| ::
      Called(cfg, turns[k].input, if k == 0 then resumed else None, turns[k].call)
  }

  /** One normal attempt per issue, and no Blocker Resolution round twice. */
  ghost predicate NoAttemptTwice(calls: seq<Attempt>) {
    forall i, j | 0 <= i < j < |calls| && calls[i].issue == calls[j].issue && calls[i].phase == calls[j].phase ::
      calls[i].phase != NormalScheduling && calls[i].ordinal < calls[j].ordinal
  }

  /** The report of an incomplete run is a true cut of what is unfinished. */
  ghost predicate IsCut(cfg: Config, input: Inputs, blockers: seq<Number>, waiting: map<Number, seq<Number>>) {
    && blockers != []
    && (forall n :: n in blockers <==> IsReadyNumber(cfg.pack, input, n))
    && (forall n | n in blockers :: n in input.attempted)
    && (forall n | n in blockers && input.allowBlockerResolution ::
          n in input.nonRetryable || Passes(input.additional, n) >= input.passes)
    && (forall n | n in cfg.selected && n !in input.completed :: n in blockers || n in waiting)
    && WaitingIsExact(cfg.pack, input, waiting, |cfg.pack|)
    && (forall n | n in waiting :: exists root :: root in blockers && DependsOn(cfg.pack, n, root))
  }

  datatype Run = Run(
    before: L.SchedulerState,
    calls: seq<Attempt>,
    result: ScheduleResult,
    after: L.SchedulerState)

  ghost function Turns(cfg: Config, execute: seq<Attempt> -> Effect, run: Run): seq<Turn> {
    TurnsOf(cfg, Opened(cfg, run.before), execute, run.calls)
  }

  /** Where a run ends. */
  ghost function End(cfg: Config, execute: seq<Attempt> -> Effect, run: Run): Session {
    After(cfg, Opened(cfg, run.before), execute, run.calls)
  }

  ghost predicate Unselected(cfg: Config, st: L.SchedulerState) {
    st.active.Some? && st.active.value.issue !in cfg.selected
  }

  /** What the driver promises of a run: which attempts it makes, where it stops, and what it reports. */
  ghost predicate IsRun(cfg: Config, execute: seq<Attempt> -> Effect, run: Run) {
    var resumed := Opened(cfg, run.before).state.active;
    var end := End(cfg, execute, run);
    // the attempts
    && WellChosen(cfg, Turns(cfg, execute, run), resumed)
    && NoAttemptTwice(run.calls)
    // an interrupted execution is the last one
    && (forall k | 0 <= k < |run.calls| ::
          EffectAt(execute, run.calls, k).Interrupted? <==> run.result.Paused? && k == |run.calls| - 1)
    // a foreign reservation stops it at once
    && (run.result.InvalidActiveAttempt? <==> Unselected(cfg, run.before))
    // the state left behind
    && run.after == (if run.result.Paused? then end.state else Projected(cfg, end.state, end.done))
    // the results
    && match run.result
       case Done => Set(cfg.selected) <= end.done
       case Unresolved(blockers, waiting) =>
         run.after.active.None? && IsCut(cfg, Described(cfg, end.state, end.done), blockers, waiting)
       case Paused => run.calls != [] && run.after.active == Some(run.calls[|run.calls| - 1])
       case InvalidActiveAttempt => run.calls == []
  }

  lemma BlockersAreReady(
    cfg: Config, st: L.SchedulerState, done: set<Number>, input: Inputs, p: Projection)
    requires input == Described(cfg, st, done)
    requires IsProjection(cfg.pack, input, p) && p.nextNormal.None?
    ensures forall k | k in p.ready :: k < |cfg.pack|
    ensures forall n ::
      n in AttemptedReady(cfg.pack, p.ready, input.attempted) <==> IsReadyNumber(cfg.pack, input, n)
    ensures forall n | IsReadyNumber(cfg.pack, input, n) :: n in input.attempted
    ensures WaitingIsExact(cfg.pack, input, p.waiting, |cfg.pack|)
  {
    assert input.nonRetryable <= input.attempted;
    forall n | IsReadyNumber(cfg.pack, input, n)
      ensures n in input.attempted && exists k :: k in p.ready && cfg.pack[k].number == n
    {
      var k: nat :| 0 <= k < |cfg.pack| && cfg.pack[k].number == n && Ready(input, cfg.pack[k]);
      assert k in p.ready && !Fresh(input, n);
    }
  }

  lemma StoppingCut(
    cfg: Config, st: L.SchedulerState, done: set<Number>, input: Inputs, p: Projection, order: seq<Number>)
    requires Resolved(cfg.pack) && DependenciesFirst(cfg.pack, order)
    requires forall n | n in Numbers(cfg.pack) :: n in order
    requires ClosedInputs(cfg.pack, input) && input == Described(cfg, st, done)
    requires IsProjection(cfg.pack, input, p) && p.nextNormal.None?
    requires !cfg.allowBlockerResolution || p.nextBlocker.None?
    requires !(Set(cfg.selected) <= done)
    ensures forall k | k in p.ready :: k < |cfg.pack|
    ensures IsCut(cfg, input, AttemptedReady(cfg.pack, p.ready, input.attempted), p.waiting)
  {
    hide *;
    BlockersAreReady(cfg, st, done, input, p);
    BlockersAreSpent(cfg, st, done, input, p);
    UnfinishedIsCovered(cfg, st, done, input, p);
    WaitingHasRoots(cfg, input, p, order);
    CutIsComplete(cfg, st, done, input, p);
  }

  lemma BlockersAreSpent(
    cfg: Config, st: L.SchedulerState, done: set<Number>, input: Inputs, p: Projection)
    requires input == Described(cfg, st, done) && IsProjection(cfg.pack, input, p)
    requires !cfg.allowBlockerResolution || p.nextBlocker.None?
    ensures forall n | IsReadyNumber(cfg.pack, input, n) && input.allowBlockerResolution && n in input.attempted ::
              n in input.nonRetryable || Passes(input.additional, n) >= input.passes
  {
    forall n | IsReadyNumber(cfg.pack, input, n) && input.allowBlockerResolution ensures !Eligible(input, n) {
    }
  }

  lemma UnfinishedIsCovered(
    cfg: Config, st: L.SchedulerState, done: set<Number>, input: Inputs, p: Projection)
    requires input == Described(cfg, st, done) && IsProjection(cfg.pack, input, p) && ClosedInputs(cfg.pack, input)
    ensures forall n | n in cfg.selected && n !in input.completed ::
              IsReadyNumber(cfg.pack, input, n) || n in p.waiting
  {
    forall n | n in cfg.selected && n !in input.completed
      ensures IsReadyNumber(cfg.pack, input, n) || n in p.waiting
    {
      UnfinishedIsReadyOrWaiting(cfg.pack, input, n);
    }
  }

  lemma WaitingHasRoots(cfg: Config, input: Inputs, p: Projection, order: seq<Number>)
    requires Resolved(cfg.pack) && DependenciesFirst(cfg.pack, order)
    requires forall n | n in Numbers(cfg.pack) :: n in order
    requires ClosedInputs(cfg.pack, input) && IsProjection(cfg.pack, input, p)
    ensures forall n | n in p.waiting ::
              exists root :: IsReadyNumber(cfg.pack, input, root) && DependsOn(cfg.pack, n, root)
  {
    forall n | n in p.waiting
      ensures exists root :: IsReadyNumber(cfg.pack, input, root) && DependsOn(cfg.pack, n, root)
    {
      var root := WaitingHasReadyRoot(cfg.pack, input, order, n);
    }
  }

  /** Put together; and something is unfinished, so the cut is not empty. */
  lemma CutIsComplete(
    cfg: Config, st: L.SchedulerState, done: set<Number>, input: Inputs, p: Projection)
    requires input == Described(cfg, st, done) && !(Set(cfg.selected) <= done)
    requires WaitingIsExact(cfg.pack, input, p.waiting, |cfg.pack|)
    requires forall k | k in p.ready :: k < |cfg.pack|
    requires forall n ::
      n in AttemptedReady(cfg.pack, p.ready, input.attempted) <==> IsReadyNumber(cfg.pack, input, n)
    requires forall n | IsReadyNumber(cfg.pack, input, n) :: n in input.attempted
    requires forall n | IsReadyNumber(cfg.pack, input, n) && input.allowBlockerResolution && n in input.attempted ::
               n in input.nonRetryable || Passes(input.additional, n) >= input.passes
    requires forall n | n in cfg.selected && n !in input.completed ::
               IsReadyNumber(cfg.pack, input, n) || n in p.waiting
    requires forall n | n in p.waiting ::
               exists root :: IsReadyNumber(cfg.pack, input, root) && DependsOn(cfg.pack, n, root)
    ensures IsCut(cfg, input, AttemptedReady(cfg.pack, p.ready, input.attempted), p.waiting)
  {
    hide IsReadyNumber, DependsOn, AttemptedReady, Passes, Attempted, NonRetryable, WaitingIsExact;
    var blockers := AttemptedReady(cfg.pack, p.ready, input.attempted);
    var unfinished :| unfinished in cfg.selected && unfinished !in done;
    assert unfinished in blockers || unfinished in p.waiting;
  }

  // ---------------------------------------------------------------------------------------------
  // The loop

  /** The session's completed issues include all that are marked complete. */
  ghost predicate Progress(cfg: Config, s: Session) {
    && (forall i | 0 <= i < |cfg.pack| && cfg.pack[i].completed :: cfg.pack[i].number in s.done)
    && (forall n | n in cfg.selected && L.StatusOf(s.state, n) == Some(L.Completed) :: n in s.done)
  }

  ghost predicate Choices(
    cfg: Config, st: L.SchedulerState, turns: seq<Turn>, resumed: Option<Attempt>)
  {
    && (if turns == [] then st.active == resumed else st.active.None?)
    && WellChosen(cfg, turns, resumed)
  }

  ghost predicate SpentCalls(st: L.SchedulerState, calls: seq<Attempt>) {
    NoAttemptTwice(calls) && forall k | 0 <= k < |calls| :: Settled(st, calls[k])
  }

  /** Between two iterations: `s` is the session, after these turns. */
  ghost predicate RunInvariant(
    cfg: Config, s: Session, turns: seq<Turn>, calls: seq<Attempt>, resumed: Option<Attempt>)
  {
    Progress(cfg, s) && Choices(cfg, s.state, turns, resumed) && SpentCalls(s.state, calls) && |turns| == |calls|
  }

  /** `a` is the attempt of this iteration: the reserved one, or the one called for. */
  ghost predicate IsNext(cfg: Config, s: Session, a: Attempt) {
    && a.issue in cfg.selected && L.StatusOf(s.state, a.issue) != Some(L.Completed)
    && !(Set(cfg.selected) <= s.done)
    && (if s.state.active.Some? then s.state.active == Some(a)
        else Chosen(cfg.pack, Described(cfg, s.state, s.done), a))
  }

  ghost function Reserved(cfg: Config, s: Session, a: Attempt): L.SchedulerState {
    Projected(cfg, s.state, s.done).(active := Some(a))
  }

  lemma ReservingKeeps(cfg: Config, s: Session, a: Attempt)
    requires s.state.active.None? || s.state.active == Some(a)
    ensures SameBudget(s.state, Reserved(cfg, s, a)) && Reserved(cfg, s, a).active == Some(a)
    ensures forall n ::
      L.StatusOf(Reserved(cfg, s, a), n) == Some(L.Completed) <==> L.StatusOf(s.state, n) == Some(L.Completed)
  {
    hide Projected;
    ProjectingKeepsBudget(cfg, s.state, s.done);
    assert forall n :: L.StatusOf(Reserved(cfg, s, a), n) == L.StatusOf(Projected(cfg, s.state, s.done), n);
    assert forall n :: Retryable(Reserved(cfg, s, a), n) == Retryable(Projected(cfg, s.state, s.done), n);
    assert Projected(cfg, s.state, s.done) == s.state.(status := Projected(cfg, s.state, s.done).status) by {
      ProjectedFields(cfg, s.state, s.done);
    }
  }

  lemma ProjectedFields(cfg: Config, st: L.SchedulerState, done: set<Number>)
    ensures Projected(cfg, st, done) == st.(status := Projected(cfg, st, done).status)
  {
  }

  lemma StepKeepsProgress(cfg: Config, s: Session, a: Attempt, e: Effect)
    requires Progress(cfg, s) && IsNext(cfg, s, a) && e.Returned?
    ensures Progress(cfg, Advanced(cfg, s, a, e))
  {
    hide Projected, Chosen;
    ReservingKeeps(cfg, s, a);
    var s' := Advanced(cfg, s, a, e);
    forall n | n in cfg.selected && L.StatusOf(s'.state, n) == Some(L.Completed) ensures n in s'.done {
      assert n != a.issue ==> L.StatusOf(s'.state, n) == L.StatusOf(Reserved(cfg, s, a), n);
    }
  }

  lemma StepKeepsChoices(
    cfg: Config, s: Session, turns: seq<Turn>, resumed: Option<Attempt>, a: Attempt, st': L.SchedulerState)
    requires Choices(cfg, s.state, turns, resumed) && IsNext(cfg, s, a) && st'.active.None?
    ensures Choices(cfg, st', turns + [Turn(Described(cfg, s.state, s.done), a)], resumed)
  {
    hide Chosen, Attempted, NonRetryable;
  }

  lemma StepKeepsSpentCalls(
    cfg: Config, s: Session, st: L.SchedulerState, st': L.SchedulerState, calls: seq<Attempt>, a: Attempt)
    requires SpentCalls(s.state, calls) && (calls != [] ==> s.state.active.None?)
    requires IsNext(cfg, s, a) && SameBudget(s.state, st) && Spends(st, st', a)
    ensures SpentCalls(st', calls + [a])
  {
    var input := Described(cfg, s.state, s.done);
    forall k | 0 <= k < |calls| && calls[k].issue == a.issue
      ensures Retryable(s.state, a.issue) && Settled(st', calls[k])
      ensures calls[k].phase == a.phase ==> a.phase != NormalScheduling && calls[k].ordinal < a.ordinal
    {
      assert Settled(s.state, calls[k]) && Chosen(cfg.pack, input, a);
    }
  }

  /** Whatever the execution does, the accounts are kept. */
  lemma StepKeepsAccounts(cfg: Config, s: Session, a: Attempt, e: Effect)
    requires L.Accounted(s.state, cfg.passes) && IsNext(cfg, s, a)
    ensures L.Accounted(Advanced(cfg, s, a, e).state, cfg.passes)
  {
    hide Projected, L.Charged, L.RoundsNumbered;
    ReservingKeeps(cfg, s, a);
    var executed := WithStatus(Reserved(cfg, s, a), a.issue, e.status);
    assert L.Entitled(executed, a, cfg.passes);
    assert L.Accounted(executed, cfg.passes);
    if e.Returned? {
      var outcome := VerdictOf(L.StatusOf(executed, a.issue), e.role).outcome;
      L.ConsumingKeepsAccounts(executed, a.issue, outcome, cfg.passes);
      L.ReleasingKeepsAccounts(executed, a.issue, outcome, cfg.passes);
    }
  }

  lemma StepDropsMeasure(
    cfg: Config, s: Session, st: L.SchedulerState, s': Session, a: Attempt)
    requires UniqueNumbers(cfg.pack) && IsNext(cfg, s, a)
    requires SameBudget(s.state, st) && st.active == Some(a) && Spends(st, s'.state, a) && s.done <= s'.done
    ensures Measure(cfg, s'.state, s'.done) < Measure(cfg, s.state, s.done)
  {
    hide Spends, Measure, Chosen, SameBudget;
    if s.state.active.Some? {
      SameBudgetSameMeasure(cfg, s.state, st, s.done);
      ResumedAttemptDrops(cfg, st, s.done, s'.state, s'.done, a);
    } else {
      var idle := st.(active := None);
      UnreservedBudget(s.state, st, s'.state, a);
      SameBudgetSameMeasure(cfg, s.state, idle, s.done);
      ChosenAttemptDrops(cfg, s.state, s.done, s'.state, s'.done, Described(cfg, s.state, s.done), a);
    }
  }

  lemma UnreservedBudget(head: L.SchedulerState, st: L.SchedulerState, st': L.SchedulerState, a: Attempt)
    requires SameBudget(head, st) && Spends(st, st', a)
    ensures SameBudget(head, st.(active := None)) && Spends(head, st', a)
  {
  }

  /** One iteration that executes an attempt, whatever the execution does. */
  lemma StepKeepsRun(
    cfg: Config, s: Session, turns: seq<Turn>, calls: seq<Attempt>, resumed: Option<Attempt>, a: Attempt,
    e: Effect)
    requires UniqueNumbers(cfg.pack) && RunInvariant(cfg, s, turns, calls, resumed)
    requires IsNext(cfg, s, a)
    ensures var s' := Advanced(cfg, s, a, e);
      && WellChosen(cfg, turns + [Turn(Described(cfg, s.state, s.done), a)], resumed)
      && NoAttemptTwice(calls + [a])
      && (L.Accounted(s.state, cfg.passes) ==> L.Accounted(s'.state, cfg.passes))
      && (e.Returned? ==>
            && RunInvariant(cfg, s', turns + [Turn(Described(cfg, s.state, s.done), a)], calls + [a], resumed)
            && Measure(cfg, s'.state, s'.done) < Measure(cfg, s.state, s.done))
  {
    hide Projected, Chosen, Described, Measure, L.Accounted, Spends, SameBudget, Progress, WellChosen, NoAttemptTwice;
    hide Settled, Advanced, Ended, UniqueNumbers;
    var st := Reserved(cfg, s, a);
    ReservingKeeps(cfg, s, a);
    if L.Accounted(s.state, cfg.passes) {
      StepKeepsAccounts(cfg, s, a, e);
    }
    var e' := if e.Returned? then e else Returned(None, Other);
    var s' := Advanced(cfg, s, a, e');
    AdvancingSpends(cfg, s, a, e');
    StepKeepsProgress(cfg, s, a, e');
    StepKeepsChoices(cfg, s, turns, resumed, a, s'.state);
    StepKeepsSpentCalls(cfg, s, st, s'.state, calls, a);
    StepDropsMeasure(cfg, s, st, s', a);
  }

  lemma AdvancingSpends(cfg: Config, s: Session, a: Attempt, e: Effect)
    requires e.Returned?
    ensures Spends(Reserved(cfg, s, a), Advanced(cfg, s, a, e).state, a)
    ensures Advanced(cfg, s, a, e).state.active.None? && s.done <= Advanced(cfg, s, a, e).done
  {
    hide Projected, VerdictOf;
    EndingSpends(Reserved(cfg, s, a), a, e.status, e.role);
  }

  /** The session `s` heads an iteration of a run that started at `before` and has made these calls. */
  ghost predicate Underway(
    cfg: Config, before: L.SchedulerState, execute: seq<Attempt> -> Effect, s: Session, calls: seq<Attempt>)
  {
    var start := Opened(cfg, before);
    && (forall k | 0 <= k < |calls| :: EffectAt(execute, calls, k).Returned?)
    && (Unselected(cfg, before) ==> calls == [])
    && if Unsettled(cfg, before, s, calls) then RunInvariant(cfg, s, [], [], before.active)
       else
         && s == After(cfg, start, execute, calls)
         && RunInvariant(cfg, s, TurnsOf(cfg, start, execute, calls), calls, start.state.active)
  }

  /** The reservation found complete has not been closed yet. */
  ghost predicate Unsettled(cfg: Config, before: L.SchedulerState, s: Session, calls: seq<Attempt>) {
    Settles(cfg, before) && calls == [] && s == Session(before, InitiallyCompleted(cfg.pack, before))
  }

  lemma RunStarts(cfg: Config, before: L.SchedulerState, execute: seq<Attempt> -> Effect)
    requires ClosedSelection(cfg.pack, Set(cfg.selected))
    ensures Underway(cfg, before, execute, Session(before, InitiallyCompleted(cfg.pack, before)), [])
  {
    hide Projected;
    var done := InitiallyCompleted(cfg.pack, before);
    forall n | n in cfg.selected && L.StatusOf(before, n) == Some(L.Completed) ensures n in done {
      assert n in Set(cfg.selected);
      var i :| 0 <= i < |cfg.pack| && cfg.pack[i].number == n;
    }
    assert RunInvariant(cfg, Session(before, done), [], [], before.active);
  }

  /** Only before the first execution can the head of an iteration find a reservation. */
  lemma ReservedIsFirst(
    cfg: Config, before: L.SchedulerState, execute: seq<Attempt> -> Effect, s: Session, calls: seq<Attempt>)
    requires Underway(cfg, before, execute, s, calls) && s.state.active.Some?
    ensures calls == [] && s == Session(before, InitiallyCompleted(cfg.pack, before))
  {
    hide Progress, WellChosen, SpentCalls, Projected;
    ProjectedFields(cfg, before, InitiallyCompleted(cfg.pack, before));
  }

  /** A reservation found complete at the head of an iteration is the one the run started with. */
  lemma SettlingKeepsRun(
    cfg: Config, before: L.SchedulerState, execute: seq<Attempt> -> Effect, s: Session, calls: seq<Attempt>,
    a: Attempt)
    requires UniqueNumbers(cfg.pack) && Underway(cfg, before, execute, s, calls)
    requires s.state.active == Some(a) && a.issue in cfg.selected
    requires L.StatusOf(s.state, a.issue) == Some(L.Completed)
    ensures Projected(cfg, s.state, s.done).active == Some(a)
    ensures var st' := L.Consumed(Projected(cfg, s.state, s.done), a.issue, L.Completed).value;
      && Underway(cfg, before, execute, Session(st', s.done + {a.issue}), calls)
      && Measure(cfg, st', s.done + {a.issue}) < Measure(cfg, s.state, s.done)
      && (L.Accounted(s.state, cfg.passes) ==> L.Accounted(st', cfg.passes))
  {
    hide Projected, L.Accounted, Measure;
    ReservedIsFirst(cfg, before, execute, s, calls);
    assert s.done + {a.issue} == s.done;
    ReservingKeeps(cfg, s, a);
    ProjectedFields(cfg, s.state, s.done);
    var st := Projected(cfg, s.state, s.done);
    var st' := L.Consumed(st, a.issue, L.Completed).value;
    assert st == Reserved(cfg, s, a);
    SettlingSpends(cfg, s, st, st', a);
    assert RunInvariant(cfg, Session(st', s.done), [], [], None);
    assert TurnsOf(cfg, Opened(cfg, before), execute, []) == [];
  }

  lemma SettlingSpends(cfg: Config, s: Session, st: L.SchedulerState, st': L.SchedulerState, a: Attempt)
    requires UniqueNumbers(cfg.pack) && SameBudget(s.state, st) && s.state.active == st.active == Some(a)
    requires st' == L.Consumed(st, a.issue, L.Completed).value
    ensures Spends(st, st', a) && Measure(cfg, st', s.done) < Measure(cfg, s.state, s.done)
    ensures L.Accounted(s.state, cfg.passes) ==> L.Accounted(st', cfg.passes)
  {
    hide Measure;
    SameBudgetSameMeasure(cfg, s.state, st, s.done);
    ResumedAttemptDrops(cfg, st, s.done, st', s.done, a);
    if L.Accounted(s.state, cfg.passes) {
      assert L.Accounted(st, cfg.passes);
      L.ConsumingKeepsAccounts(st, a.issue, L.Completed, cfg.passes);
    }
  }

  lemma NextIsSettled(
    cfg: Config, before: L.SchedulerState, execute: seq<Attempt> -> Effect, s: Session, calls: seq<Attempt>)
    requires Underway(cfg, before, execute, s, calls)
    requires s.state.active.Some? ==>
      s.state.active.value.issue in cfg.selected
      && L.StatusOf(s.state, s.state.active.value.issue) != Some(L.Completed)
    ensures !Unsettled(cfg, before, s, calls) && !Unselected(cfg, before)
    ensures s == After(cfg, Opened(cfg, before), execute, calls)
  {
    hide RunInvariant, Projected;
  }

  lemma IterationKeepsRun(
    cfg: Config, before: L.SchedulerState, execute: seq<Attempt> -> Effect, s: Session, calls: seq<Attempt>,
    a: Attempt)
    requires UniqueNumbers(cfg.pack) && Underway(cfg, before, execute, s, calls) && IsNext(cfg, s, a)
    ensures var effect := execute(calls + [a]);
      var s' := Advanced(cfg, s, a, effect);
      && (L.Accounted(s.state, cfg.passes) ==> L.Accounted(s'.state, cfg.passes))
      && (effect.Interrupted? ==> IsRun(cfg, execute, Run(before, calls + [a], Paused, s'.state)))
      && (effect.Returned? ==>
            && Underway(cfg, before, execute, s', calls + [a])
            && Measure(cfg, s'.state, s'.done) < Measure(cfg, s.state, s.done))
  {
    hide RunInvariant, L.Accounted, Measure, Chosen, Opened, Advanced, After, TurnsOf, UniqueNumbers;
    hide WellChosen, NoAttemptTwice, Described;
    var start := Opened(cfg, before);
    NextIsSettled(cfg, before, execute, s, calls);
    StepKeepsRun(
      cfg, s, TurnsOf(cfg, start, execute, calls), calls, start.state.active, a, execute(calls + [a]));
    OneMore(cfg, start, execute, calls, a);
    EffectsSnoc(execute, calls, a);
    if execute(calls + [a]).Interrupted? {
      InterruptionKeepsReservation(cfg, s, a, execute(calls + [a]));
    }
  }

  lemma EffectsSnoc(execute: seq<Attempt> -> Effect, calls: seq<Attempt>, a: Attempt)
    ensures forall k | 0 <= k < |calls| ::
      EffectAt(execute, calls + [a], k) == EffectAt(execute, calls, k)
    ensures EffectAt(execute, calls + [a], |calls|) == execute(calls + [a])
  {
    forall k | 0 <= k < |calls| ensures EffectAt(execute, calls + [a], k) == EffectAt(execute, calls, k) {
      assert (calls + [a])[..k + 1] == calls[..k + 1];
    }
    assert (calls + [a])[..|calls| + 1] == calls + [a];
  }

  lemma InterruptionKeepsReservation(cfg: Config, s: Session, a: Attempt, e: Effect)
    requires e.Interrupted?
    ensures Advanced(cfg, s, a, e).state.active == Some(a)
  {
    hide Projected;
  }

  /** The run ends at the head of an iteration: with everything complete, or with nothing left to choose. */
  lemma RunEnds(
    cfg: Config, before: L.SchedulerState, execute: seq<Attempt> -> Effect, s: Session, calls: seq<Attempt>,
    r: ScheduleResult)
    requires Underway(cfg, before, execute, s, calls)
    requires s.state.active.Some? ==>
      s.state.active.value.issue in cfg.selected
      && L.StatusOf(s.state, s.state.active.value.issue) != Some(L.Completed)
    requires r.Done? || r.Unresolved?
    requires r.Done? ==> Set(cfg.selected) <= s.done
    requires r.Unresolved? ==>
      s.state.active.None? && IsCut(cfg, Described(cfg, s.state, s.done), r.blockers, r.waiting)
    ensures IsRun(cfg, execute, Run(before, calls, r, Projected(cfg, s.state, s.done)))
  {
    hide IsCut, Described, Opened, After, TurnsOf, WellChosen, NoAttemptTwice;
    NextIsSettled(cfg, before, execute, s, calls);
    ProjectedFields(cfg, s.state, s.done);
  }

  /** The run is refused at once. */
  lemma RunIsRefused(
    cfg: Config, before: L.SchedulerState, execute: seq<Attempt> -> Effect, s: Session, calls: seq<Attempt>)
    requires Underway(cfg, before, execute, s, calls)
    requires s.state.active.Some? && s.state.active.value.issue !in cfg.selected
    ensures IsRun(cfg, execute, Run(before, calls, InvalidActiveAttempt, Projected(cfg, s.state, s.done)))
  {
    hide IsCut, Described, WellChosen, NoAttemptTwice, Projected;
    ReservedIsFirst(cfg, before, execute, s, calls);
  }

  lemma SelectionClosesInputs(cfg: Config, s: Session)
    requires Resolved(cfg.pack) && ClosedSelection(cfg.pack, Set(cfg.selected))
    requires Progress(cfg, s)
    ensures ClosedInputs(cfg.pack, Described(cfg, s.state, s.done))
  {
    var input := Described(cfg, s.state, s.done);
    forall k, d | 0 <= k < |cfg.pack| && cfg.pack[k].number in input.selected && d in cfg.pack[k].dependencies
      ensures d in Numbers(cfg.pack) && (d in input.completed || d in input.selected)
    {
      NodeAt(cfg.pack, k);
    }
  }

  lemma UnderwayProgress(
    cfg: Config, before: L.SchedulerState, execute: seq<Attempt> -> Effect, s: Session, calls: seq<Attempt>)
    requires Underway(cfg, before, execute, s, calls)
    ensures Progress(cfg, s)
  {
    hide Progress;
  }

  lemma RecordingProjects(
    cfg: Config, st: L.SchedulerState, done: set<Number>, p: Projection, ready: set<Number>, st': L.SchedulerState)
    requires IsProjection(cfg.pack, Described(cfg, st, done), p)
    requires ready == set k | k in p.ready && k < |cfg.pack| :: cfg.pack[k].number
    requires L.StatusesProjected(st, st', cfg.selected, ready, p.waiting.Keys)
    requires st' == st.(status := st'.status)
    ensures st' == Projected(cfg, st, done)
  {
    hide Described;
    var input := Described(cfg, st, done);
    forall n ensures L.StatusOf(st', n) == L.StatusOf(Projected(cfg, st, done), n) {
      ProjectedStatuses(cfg, st, done, n);
      PartitionNumbers(cfg, input, p, n);
      if n in cfg.selected {
        assert (n in ready) == IsReadyNumber(cfg.pack, input, n);
      }
    }
    SameStatuses(st', Projected(cfg, st, done));
  }

  lemma PartitionNumbers(cfg: Config, input: Inputs, p: Projection, n: Number)
    requires IsProjection(cfg.pack, input, p)
    ensures IsReadyNumber(cfg.pack, input, n) <==> exists k :: k in p.ready && k < |cfg.pack| && cfg.pack[k].number == n
    ensures IsWaitingNumber(cfg.pack, input, n) <==> n in p.waiting
  {
    hide Ready, Waiting;
    if IsReadyNumber(cfg.pack, input, n) {
      var k: nat :| k < |cfg.pack| && cfg.pack[k].number == n && Ready(input, cfg.pack[k]);
      assert k in p.ready;
    }
  }

  lemma SameStatuses(st: L.SchedulerState, st': L.SchedulerState)
    requires forall n :: L.StatusOf(st, n) == L.StatusOf(st', n)
    ensures st.status == st'.status
  {
    forall n ensures n in st.status <==> n in st'.status {
      assert L.StatusOf(st, n) == L.StatusOf(st', n);
    }
    forall n | n in st.status ensures st.status[n] == st'.status[n] {
      assert L.StatusOf(st, n) == L.StatusOf(st', n);
    }
  }

  /** The head of an iteration: derive the inputs, project them, and record the projection. */
  method Observe(cfg: Config, writer: L.LoopStateWriter, done: set<Number>)
    returns (input: Inputs, projection: Projection)
    requires UniqueNumbers(cfg.pack)
    modifies writer
    ensures input == Described(cfg, old(writer.state), done) && IsProjection(cfg.pack, input, projection)
    ensures writer.state == Projected(cfg, old(writer.state), done)
  {
    hide IsProjection, Projected, L.StatusesProjected;
    var attempted, nonRetryable := Derive(cfg, writer.state);
    input := Inputs(
      Set(cfg.selected), done, attempted, writer.state.additionalPasses, nonRetryable,
      cfg.allowBlockerResolution, cfg.passes);
    projection := Project(cfg.pack, input);
    var ready := set k | k in projection.ready && k < |cfg.pack| :: cfg.pack[k].number;
    writer.RecordDependencyProjection(cfg.selected, ready, projection.waiting.Keys);
    RecordingProjects(cfg, old(writer.state), done, projection, ready, writer.state);
  }

  /** Resumes the reserved attempt, or reserves the next one of the projection if there is one. */
  method NextAttempt(cfg: Config, writer: L.LoopStateWriter, input: Inputs, projection: Projection)
    returns (attempt: Option<Attempt>)
    requires UniqueNumbers(cfg.pack) && IsProjection(cfg.pack, input, projection)
    modifies writer
    ensures attempt.None? ==>
      && writer.state == old(writer.state) && writer.state.active.None? && projection.nextNormal.None?
      && (!cfg.allowBlockerResolution || projection.nextBlocker.None?)
    ensures attempt.Some? ==>
      && writer.state == old(writer.state).(active := attempt)
      && (if old(writer.state).active.Some? then attempt == old(writer.state).active
          else Chosen(cfg.pack, input, attempt.value))
  {
    if writer.state.active.Some? {
      return writer.state.active;
    }
    if projection.nextNormal.Some? {
      NextNormalIsChosen(cfg.pack, input, projection);
      var normal := Attempt(cfg.pack[projection.nextNormal.value].number, NormalScheduling, 1);
      var _ := writer.ReserveSchedulingAttempt(normal);
      return Some(normal);
    }
    if cfg.allowBlockerResolution && projection.nextBlocker.Some? {
      NextBlockerIsChosen(cfg.pack, input, projection);
      var pass := Attempt(
        cfg.pack[projection.nextBlocker.value].number, BlockerResolution, projection.blockerRound.value);
      var _ := writer.ReserveSchedulingAttempt(pass);
      return Some(pass);
    }
    return None;
  }

  /** Spends or releases the executed attempt, as the persisted status and the role's result decide. */
  method EndAttempt(writer: L.LoopStateWriter, attempt: Attempt, role: RoleStatus) returns (completed: bool)
    requires writer.state.active == Some(attempt)
    modifies writer
    ensures writer.state == Ended(old(writer.state), attempt, None, role)
    ensures completed <==> VerdictOf(L.StatusOf(old(writer.state), attempt.issue), role).outcome == L.Completed
  {
    var verdict := VerdictOf(L.StatusOf(writer.state, attempt.issue), role);
    if !verdict.consumed {
      var _ := writer.ReleaseSchedulingAttempt(attempt.issue, verdict.outcome);
      return false;
    }
    var _ := writer.CompleteSchedulingAttempt(attempt.issue, verdict.outcome);
    return verdict.outcome == L.Completed;
  }

  /** Executes the reserved attempt and settles it, unless a run-wide interruption leaves it reserved. */
  method ExecuteAttempt(
    cfg: Config, writer: L.LoopStateWriter, execute: seq<Attempt> -> Effect, attempt: Attempt, done: set<Number>,
    calls: seq<Attempt>, ghost head: L.SchedulerState) returns (paused: bool, completed: set<Number>)
    requires writer.state == Reserved(cfg, Session(head, done), attempt)
    modifies writer
    ensures Session(writer.state, completed)
         == Advanced(cfg, Session(head, done), attempt, execute(calls + [attempt]))
    ensures paused <==> execute(calls + [attempt]).Interrupted?
  {
    hide Projected, VerdictOf;
    var effect := execute(calls + [attempt]);
    writer.state := WithStatus(writer.state, attempt.issue, effect.status);
    if effect.Interrupted? {
      return true, done;
    }
    var finished := EndAttempt(writer, attempt, effect.role);
    return false, if finished then done + {attempt.issue} else done;
  }

  method ExecuteDependencySchedule(
    cfg: Config, writer: L.LoopStateWriter, execute: seq<Attempt> -> Effect, ghost order: seq<Number>)
    returns (r: ScheduleResult, calls: seq<Attempt>)
    requires Resolved(cfg.pack) && DependenciesFirst(cfg.pack, order)
    requires forall n | n in Numbers(cfg.pack) :: n in order
    requires ClosedSelection(cfg.pack, Set(cfg.selected))
    modifies writer
    ensures IsRun(cfg, execute, Run(old(writer.state), calls, r, writer.state))
    ensures L.Accounted(old(writer.state), cfg.passes) ==> L.Accounted(writer.state, cfg.passes)
  {
    hide Underway, IsRun, L.Accounted, Measure, IsCut, Chosen, IsProjection, Projected, Described, SameBudget;
    hide DependenciesFirst, ClosedSelection, AttemptedReady, Progress, L.Consumed, Advanced;
    ghost var before := writer.state;
    var done := InitiallyCompleted(cfg.pack, writer.state);
    calls := [];
    RunStarts(cfg, before, execute);
    while true
      invariant Underway(cfg, before, execute, Session(writer.state, done), calls)
      invariant L.Accounted(before, cfg.passes) ==> L.Accounted(writer.state, cfg.passes)
      decreases Measure(cfg, writer.state, done)
    {
      ghost var head := Session(writer.state, done);
      var input, projection := Observe(cfg, writer, done);
      ProjectingKeepsAccounts(cfg, head);

      var active := writer.state.active;
      if active.Some? {
        if active.value.issue !in cfg.selected {
          RunIsRefused(cfg, before, execute, head, calls);
          return InvalidActiveAttempt, calls;
        }
        if L.StatusOf(writer.state, active.value.issue) == Some(L.Completed) {
          SettlingKeepsRun(cfg, before, execute, head, calls, active.value);
          var _ := writer.CompleteSchedulingAttempt(active.value.issue, L.Completed);
          done := done + {active.value.issue};
          continue;
        }
      }
      if Set(cfg.selected) <= done {
        RunEnds(cfg, before, execute, head, calls, Done);
        return Done, calls;
      }
      var next := NextAttempt(cfg, writer, input, projection);
      if next.None? {
        UnderwayProgress(cfg, before, execute, head, calls);
        SelectionClosesInputs(cfg, head);
        StoppingCut(cfg, head.state, done, input, projection, order);
        r := Unresolved(AttemptedReady(cfg.pack, projection.ready, input.attempted), projection.waiting);
        RunEnds(cfg, before, execute, head, calls, r);
        return;
      }
      var attempt := next.value;
      NextIsNext(cfg, before, execute, head, calls, attempt);
      IterationKeepsRun(cfg, before, execute, head, calls, attempt);
      var paused, completed := ExecuteAttempt(cfg, writer, execute, attempt, done, calls, head.state);
      calls := calls + [attempt];
      done := completed;
      if paused {
        return Paused, calls;
      }
    }
  }

  /** Recording the projection changes nothing that the decisions after it look at. */
  lemma ProjectingKeepsAccounts(cfg: Config, s: Session)
    ensures L.Accounted(s.state, cfg.passes) ==> L.Accounted(Projected(cfg, s.state, s.done), cfg.passes)
    ensures Projected(cfg, s.state, s.done).active == s.state.active
    ensures forall n ::
      L.StatusOf(Projected(cfg, s.state, s.done), n) == Some(L.Completed)
      <==> L.StatusOf(s.state, n) == Some(L.Completed)
  {
    hide Projected;
    ProjectingKeepsBudget(cfg, s.state, s.done);
    ProjectedFields(cfg, s.state, s.done);
  }

  lemma NextIsNext(
    cfg: Config, before: L.SchedulerState, execute: seq<Attempt> -> Effect, s: Session, calls: seq<Attempt>,
    a: Attempt)
    requires Underway(cfg, before, execute, s, calls) && !(Set(cfg.selected) <= s.done)
    requires if s.state.active.Some?
      then s.state.active == Some(a) && a.issue in cfg.selected && L.StatusOf(s.state, a.issue) != Some(L.Completed)
      else Chosen(cfg.pack, Described(cfg, s.state, s.done), a)
    ensures IsNext(cfg, s, a)
  {
    UnderwayProgress(cfg, before, execute, s, calls);
    hide Underway;
  }

  /** Runs again after every run-wide interruption, until a run ends. */
  method ScheduleAcrossInterruptions(
    cfg: Config, writer: L.LoopStateWriter, workers: seq<seq<Attempt> -> Effect>, ghost order: seq<Number>)
    returns (r: ScheduleResult, runs: seq<Run>)
    requires Resolved(cfg.pack) && DependenciesFirst(cfg.pack, order)
    requires forall n | n in Numbers(cfg.pack) :: n in order
    requires ClosedSelection(cfg.pack, Set(cfg.selected))
    modifies writer
    // the runs follow on one another, and only the last may end otherwise than by an interruption
    ensures Successive(cfg, workers, runs, old(writer.state), writer.state)
    ensures r == (if runs == [] then Paused else runs[|runs| - 1].result)
    ensures r.Paused? ==> |runs| == |workers|
    // the budgets are those of a single run
    ensures L.Accounted(old(writer.state), cfg.passes) ==>
      L.Accounted(writer.state, cfg.passes) && BudgetsKept(writer.state, cfg.passes)
  {
    hide IsRun, L.Charged, L.Accounted, Successive;
    r, runs := Paused, [];
    ghost var start := writer.state;
    NoRunsYet(cfg, workers, start);
    WithinBudgets(writer.state, cfg.passes);
    for i := 0 to |workers|
      invariant L.Accounted(start, cfg.passes) ==> L.Accounted(writer.state, cfg.passes)
      invariant r.Paused? && |runs| == i && (runs != [] ==> r == runs[i - 1].result)
      invariant Successive(cfg, workers, runs, start, writer.state)
      invariant L.Accounted(writer.state, cfg.passes) ==> BudgetsKept(writer.state, cfg.passes)
    {
      var before := writer.state;
      var result, calls := ExecuteDependencySchedule(cfg, writer, workers[i], order);
      OneMoreRun(cfg, workers, runs, start, Run(before, calls, result, writer.state));
      WithinBudgets(writer.state, cfg.passes);
      r, runs := result, runs + [Run(before, calls, result, writer.state)];
      if !r.Paused? {
        return;
      }
    }
  }

  /** The runs lead from one state to the other, each with its own workers, and all but the last interrupted. */
  ghost predicate Successive(
    cfg: Config, workers: seq<seq<Attempt> -> Effect>, runs: seq<Run>, before: L.SchedulerState,
    after: L.SchedulerState)
  {
    if runs == [] then before == after
    else
      var init, last := runs[..|runs| - 1], runs[|runs| - 1];
      && |runs| <= |workers|
      && Successive(cfg, workers, init, before, last.before)
      && (init != [] ==> init[|init| - 1].result.Paused?)
      && IsRun(cfg, workers[|init|], last) && last.after == after
  }

  ghost predicate BudgetsKept(st: L.SchedulerState, passes: nat) {
    forall n ::
      && L.Charged(st.history, n, NormalScheduling) <= 1
      && L.Charged(st.history, n, BlockerResolution) <= passes
  }

  lemma WithinBudgets(st: L.SchedulerState, passes: nat)
    ensures L.Accounted(st, passes) ==> BudgetsKept(st, passes)
  {
    hide L.Charged;
  }

  lemma NoRunsYet(cfg: Config, workers: seq<seq<Attempt> -> Effect>, start: L.SchedulerState)
    ensures Successive(cfg, workers, [], start, start)
  {
  }

  lemma OneMoreRun(
    cfg: Config, workers: seq<seq<Attempt> -> Effect>, runs: seq<Run>, start: L.SchedulerState, run: Run)
    requires Successive(cfg, workers, runs, start, run.before)
    requires |runs| < |workers| && IsRun(cfg, workers[|runs|], run)
    requires runs != [] ==> runs[|runs| - 1].result.Paused?
    ensures Successive(cfg, workers, runs + [run], start, run.after)
  {
    hide IsRun;
    assert (runs + [run])[..|runs|] == runs;
  }

  // ---------------------------------------------------------------------------------------------
  // Consequences

  /** The inputs of the projection that follows the first `k` executions of the run. */
  ghost function InputAt(cfg: Config, execute: seq<Attempt> -> Effect, run: Run, k: nat): Inputs
    requires k <= |run.calls|
  {
    InputAfter(cfg, Opened(cfg, run.before), execute, run.calls[..k])
  }

  /** What was reserved when the run made its `k`-th attempt. */
  ghost function ReservedAt(cfg: Config, run: Run, k: nat): Option<Attempt> {
    if k == 0 then Opened(cfg, run.before).state.active else None
  }

  lemma AttemptIsCalled(cfg: Config, execute: seq<Attempt> -> Effect, run: Run, k: nat)
    requires IsRun(cfg, execute, run) && k < |run.calls|
    ensures Called(cfg, InputAt(cfg, execute, run, k), ReservedAt(cfg, run, k), run.calls[k])
  {
    hide Opened, InputAfter, Called, IsCut;
    assert Turns(cfg, execute, run)[k] == Turn(InputAt(cfg, execute, run, k), run.calls[k]);
  }

  /** A run is determined by the state it starts from and by what its executions do. */
  lemma RunIsDetermined(cfg: Config, execute: seq<Attempt> -> Effect, run: Run, other: Run)
    requires IsRun(cfg, execute, run) && IsRun(cfg, execute, other) && run.before == other.before
    ensures run.calls == other.calls && run.after == other.after
    ensures run.result.Done? == other.result.Done? && run.result.Paused? == other.result.Paused?
    ensures run.result.Unresolved? && other.result.Unresolved? ==>
      && (forall n :: n in run.result.blockers <==> n in other.result.blockers)
      && run.result.waiting == other.result.waiting
  {
    hide *;
    SameAttempts(cfg, execute, run, other, |run.calls|);
    SameAttempts(cfg, execute, other, run, |other.calls|);
    assert run.calls == other.calls;
    SameEnd(cfg, execute, run, other);
  }

  /** As long as one run goes on, so does the other, with the same attempt. */
  lemma {:induction false} SameAttempts(
    cfg: Config, execute: seq<Attempt> -> Effect, run: Run, other: Run, k: nat)
    requires IsRun(cfg, execute, run) && IsRun(cfg, execute, other) && run.before == other.before
    requires k <= |run.calls|
    ensures k <= |other.calls| && run.calls[..k] == other.calls[..k]
  {
    hide *;
    if k > 0 {
      SameAttempts(cfg, execute, run, other, k - 1);
      SameInput(cfg, execute, run, other, k - 1);
      AttemptIsCalled(cfg, execute, run, k - 1);
      LastIsInterrupted(cfg, execute, run, other, k - 1);
      if other.result.Done? || other.result.Unresolved? {
        StoppingIsFinal(cfg, execute, other, run.calls[k - 1]);
      }
      AttemptIsCalled(cfg, execute, other, k - 1);
      CalledIsUnique(
        cfg, InputAt(cfg, execute, run, k - 1), ReservedAt(cfg, run, k - 1), run.calls[k - 1], other.calls[k - 1]);
      assert run.calls[..k] == run.calls[..k - 1] + [run.calls[k - 1]];
      assert other.calls[..k] == other.calls[..k - 1] + [other.calls[k - 1]];
    }
  }

  lemma CalledIsUnique(cfg: Config, input: Inputs, reserved: Option<Attempt>, a: Attempt, b: Attempt)
    requires Called(cfg, input, reserved, a) && Called(cfg, input, reserved, b)
    ensures a == b
  {
    hide Chosen;
    if reserved.None? {
      ChosenIsUnique(cfg.pack, input, a, b);
    }
  }

  lemma SameInput(cfg: Config, execute: seq<Attempt> -> Effect, run: Run, other: Run, k: nat)
    requires run.before == other.before && k <= |run.calls| && k <= |other.calls|
    requires run.calls[..k] == other.calls[..k]
    ensures InputAt(cfg, execute, run, k) == InputAt(cfg, execute, other, k)
    ensures ReservedAt(cfg, run, k) == ReservedAt(cfg, other, k)
  {
    hide Opened, InputAfter;
  }

  /** Where a run ends of its own accord, nothing is called for. */
  lemma StoppingIsFinal(cfg: Config, execute: seq<Attempt> -> Effect, run: Run, a: Attempt)
    requires IsRun(cfg, execute, run) && (run.result.Done? || run.result.Unresolved?)
    ensures !Called(cfg, InputAt(cfg, execute, run, |run.calls|), ReservedAt(cfg, run, |run.calls|), a)
  {
    hide Opened, Projected, InputAfter, Described, WellChosen, NoAttemptTwice, IsCut, Chosen, After, Turns;
    var input := InputAt(cfg, execute, run, |run.calls|);
    assert run.calls[..|run.calls|] == run.calls;
    InputOfEnd(cfg, execute, run);
    if Chosen(cfg.pack, input, a) {
      ChosenIsUnfinished(cfg, input, a);
    }
    if run.result.Unresolved? {
      NothingReserved(cfg, execute, run);
      CutLeavesNoChoice(cfg, input, run.result.blockers, run.result.waiting, a);
    }
  }

  /** A run goes on after `k` attempts unless the other, having made the same ones, has ended of its own accord. */
  lemma LastIsInterrupted(cfg: Config, execute: seq<Attempt> -> Effect, run: Run, other: Run, k: nat)
    requires IsRun(cfg, execute, run) && IsRun(cfg, execute, other) && run.before == other.before
    requires k < |run.calls| && k <= |other.calls| && run.calls[..k] == other.calls[..k]
    ensures k < |other.calls| || other.result.Done? || other.result.Unresolved?
  {
    hide Opened, Projected, Described, WellChosen, NoAttemptTwice, IsCut, After, Turns;
    if k == |other.calls| && k > 0 {
      assert run.calls[..k - 1 + 1] == other.calls[..k - 1 + 1];
      assert EffectAt(execute, run.calls, k - 1) == EffectAt(execute, other.calls, k - 1);
    }
  }

  lemma InputOfEnd(cfg: Config, execute: seq<Attempt> -> Effect, run: Run)
    ensures var end := End(cfg, execute, run);
      InputAfter(cfg, Opened(cfg, run.before), execute, run.calls) == Described(cfg, end.state, end.done)
    ensures InputAfter(cfg, Opened(cfg, run.before), execute, run.calls).selected == Set(cfg.selected)
    ensures InputAfter(cfg, Opened(cfg, run.before), execute, run.calls).completed == End(cfg, execute, run).done
  {
    hide Opened, After, Attempted, NonRetryable;
  }

  /** A run that leaves no reservation and executed nothing had none to resume. */
  lemma NothingReserved(cfg: Config, execute: seq<Attempt> -> Effect, run: Run)
    requires IsRun(cfg, execute, run) && run.result.Unresolved?
    ensures End(cfg, execute, run).state.active.None?
    ensures run.calls == [] ==> Opened(cfg, run.before).state.active.None?
  {
    hide Opened, Projected, WellChosen, NoAttemptTwice, IsCut, Described;
    var end := End(cfg, execute, run);
    ProjectedFields(cfg, end.state, end.done);
  }

  lemma ChosenIsUnfinished(cfg: Config, input: Inputs, a: Attempt)
    requires Chosen(cfg.pack, input, a)
    ensures !(input.selected <= input.completed)
  {
  }

  lemma CutLeavesNoChoice(
    cfg: Config, input: Inputs, blockers: seq<Number>, waiting: map<Number, seq<Number>>, a: Attempt)
    requires IsCut(cfg, input, blockers, waiting)
    ensures !Chosen(cfg.pack, input, a)
  {
  }

  lemma SameEnd(cfg: Config, execute: seq<Attempt> -> Effect, run: Run, other: Run)
    requires IsRun(cfg, execute, run) && IsRun(cfg, execute, other)
    requires run.before == other.before && run.calls == other.calls
    ensures run.after == other.after
    ensures run.result.Done? == other.result.Done? && run.result.Paused? == other.result.Paused?
    ensures run.result.Unresolved? && other.result.Unresolved? ==>
      && (forall n :: n in run.result.blockers <==> n in other.result.blockers)
      && run.result.waiting == other.result.waiting
  {
    hide Opened, Projected, Described, WellChosen, NoAttemptTwice, IsCut, After, Turns;
    var end := End(cfg, execute, run);
    var input := Described(cfg, end.state, end.done);
    InputOfEnd(cfg, execute, run);
    if run.calls != [] {
      var last := |run.calls| - 1;
      assert EffectAt(execute, run.calls, last) == EffectAt(execute, other.calls, last);
    }
    if run.result.Unresolved? {
      CutIsUnfinished(cfg, input, run.result.blockers, run.result.waiting);
    }
    if other.result.Unresolved? {
      CutIsUnfinished(cfg, input, other.result.blockers, other.result.waiting);
    }
    if run.result.Unresolved? && other.result.Unresolved? {
      CutIsUnique(cfg, input, run.result.blockers, run.result.waiting, other.result.blockers, other.result.waiting);
    }
  }

  lemma CutIsUnfinished(cfg: Config, input: Inputs, blockers: seq<Number>, waiting: map<Number, seq<Number>>)
    requires IsCut(cfg, input, blockers, waiting)
    ensures !(input.selected <= input.completed)
  {
    assert blockers[0] in blockers;
  }

  lemma CutIsUnique(
    cfg: Config, input: Inputs, blockers: seq<Number>, waiting: map<Number, seq<Number>>,
    blockers': seq<Number>, waiting': map<Number, seq<Number>>)
    requires IsCut(cfg, input, blockers, waiting) && IsCut(cfg, input, blockers', waiting')
    ensures forall n :: n in blockers <==> n in blockers'
    ensures waiting == waiting'
  {
    hide IsReadyNumber, DependsOn, Passes, WaitingIsExact;
    WaitingIsIncluded(cfg.pack, input, waiting, waiting');
    WaitingIsIncluded(cfg.pack, input, waiting', waiting);
  }

  lemma WaitingIsIncluded(
    pack: Pack, input: Inputs, waiting: map<Number, seq<Number>>, waiting': map<Number, seq<Number>>)
    requires WaitingIsExact(pack, input, waiting, |pack|) && WaitingIsExact(pack, input, waiting', |pack|)
    ensures forall n | n in waiting :: n in waiting' && waiting'[n] == waiting[n]
  {
    hide Incomplete, Waiting;
  }

  /** What an interruption leaves reserved is what the next run makes first, unless it turned out complete. */
  lemma InterruptedIsResumed(
    cfg: Config, execute: seq<Attempt> -> Effect, run: Run, again: seq<Attempt> -> Effect, next: Run)
    requires IsRun(cfg, execute, run) && run.result.Paused?
    requires IsRun(cfg, again, next) && next.before == run.after && next.calls != []
    requires L.StatusOf(run.after, run.calls[|run.calls| - 1].issue) != Some(L.Completed)
    ensures next.calls[0] == run.calls[|run.calls| - 1]
  {
    AttemptIsCalled(cfg, again, next, 0);
    hide IsRun;
  }

  /** With the accounts in order, an exhausted blocker has had exactly its budget. */
  lemma CutSpendsExactBudget(cfg: Config, execute: seq<Attempt> -> Effect, run: Run, n: Number)
    requires IsRun(cfg, execute, run) && L.Accounted(run.after, cfg.passes)
    requires run.result.Unresolved? && n in run.result.blockers
    requires cfg.allowBlockerResolution && Retryable(run.after, n)
    ensures L.Charged(run.after.history, n, BlockerResolution) == cfg.passes
  {
    hide Opened, After, WellChosen, NoAttemptTwice, Turns, DependsOn, L.Charged, Projected;
    var end := End(cfg, execute, run);
    ProjectingKeepsBudget(cfg, end.state, end.done);
    assert L.Charged(run.after.history, n, BlockerResolution) == Passes(run.after.additionalPasses, n);
    assert Passes(end.state.additionalPasses, n) >= cfg.passes;
  }

  // ---------------------------------------------------------------------------------------------
  // Fairness

  /** Between two turns only the executed issue's pass count moves, and only up to the turn's own round. */
  ghost predicate PassesMove(input: Inputs, a: Attempt, after: Inputs) {
    forall n ::
      var before, later := Passes(input.additional, n), Passes(after.additional, n);
      before == later || (n == a.issue && a.phase != NormalScheduling && before <= later == a.ordinal)
  }

  lemma PassesMoveByOneTurn(cfg: Config, execute: seq<Attempt> -> Effect, run: Run, k: nat)
    requires k < |run.calls|
    ensures PassesMove(InputAt(cfg, execute, run, k), run.calls[k], InputAt(cfg, execute, run, k + 1))
  {
    hide Opened, Advanced, Attempted, NonRetryable;
    var calls := run.calls[..k + 1];
    assert calls[..k] == run.calls[..k];
    AdvancingMovesPasses(
      cfg, After(cfg, Opened(cfg, run.before), execute, calls[..k]), run.calls[k], execute(calls));
  }

  lemma AdvancingMovesPasses(cfg: Config, s: Session, a: Attempt, e: Effect)
    ensures var s' := Advanced(cfg, s, a, e);
      PassesMove(Described(cfg, s.state, s.done), a, Described(cfg, s'.state, s'.done))
  {
    hide Projected, Attempted, NonRetryable;
    ProjectedFields(cfg, s.state, s.done);
    if e.Returned? {
      EndingSpends(Reserved(cfg, s, a), a, e.status, e.role);
    }
  }

  /** `n` competes for Blocker Resolution passes before each of the attempts `from..to`. */
  ghost predicate Competes(
    cfg: Config, execute: seq<Attempt> -> Effect, run: Run, n: Number, from: nat, to: nat)
    requires from <= to <= |run.calls|
  {
    forall k | from <= k < to ::
      IsReadyNumber(cfg.pack, InputAt(cfg, execute, run, k), n) && Eligible(InputAt(cfg, execute, run, k), n)
  }

  function Gap(input: Inputs, a: Number, b: Number): int {
    Passes(input.additional, a) - Passes(input.additional, b)
  }

  lemma OneTurnIsFair(pack: Pack, input: Inputs, call: Attempt, next: Inputs, a: Number, b: Number)
    requires Chosen(pack, input, call) && PassesMove(input, call, next)
    requires IsReadyNumber(pack, input, a) && Eligible(input, a)
    requires IsReadyNumber(pack, input, b) && Eligible(input, b)
    requires -1 <= Gap(input, a, b) <= 1
    ensures -1 <= Gap(next, a, b) <= 1
  {
  }

  /** Once two competing blockers are within one pass of each other they stay so, to the end of the run. */
  lemma {:induction false} FairOverARun(
    cfg: Config, execute: seq<Attempt> -> Effect, run: Run, a: Number, b: Number, from: nat, to: nat)
    requires IsRun(cfg, execute, run) && from <= to <= |run.calls|
    requires from > 0 || ReservedAt(cfg, run, 0).None?
    requires Competes(cfg, execute, run, a, from, to) && Competes(cfg, execute, run, b, from, to)
    requires -1 <= Gap(InputAt(cfg, execute, run, from), a, b) <= 1
    ensures -1 <= Gap(InputAt(cfg, execute, run, to), a, b) <= 1
  {
    hide IsRun, InputAt, Chosen, PassesMove, IsReadyNumber, Eligible, Gap;
    if from < to {
      FairOverARun(cfg, execute, run, a, b, from, to - 1);
      AttemptIsCalled(cfg, execute, run, to - 1);
      PassesMoveByOneTurn(cfg, execute, run, to - 1);
      OneTurnIsFair(
        cfg.pack, InputAt(cfg, execute, run, to - 1), run.calls[to - 1], InputAt(cfg, execute, run, to), a, b);
    }
  }

  /** No blocker is retried while any ready issue still has its normal attempt. */
  lemma BlockersWaitForFreshWork(cfg: Config, execute: seq<Attempt> -> Effect, run: Run, k: nat, n: Number)
    requires IsRun(cfg, execute, run) && k < |run.calls| && ReservedAt(cfg, run, k).None?
    requires run.calls[k].phase == BlockerResolution
    requires IsReadyNumber(cfg.pack, InputAt(cfg, execute, run, k), n)
    ensures n in InputAt(cfg, execute, run, k).attempted
  {
    hide IsRun, Opened, After;
    AttemptIsCalled(cfg, execute, run, k);
    var input := InputAt(cfg, execute, run, k);
    assert input.nonRetryable <= input.attempted;
  }
}
