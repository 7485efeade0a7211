/**
 What each critical section leaves of a session, case by case: its status, its slot, its place in the
 queue and its lease (src/devloop/portable_sessions.py:852-1030, 1155-1554, 1900-2329, 2467-2860,
 3057-3145). The cases are those of the source, stated without the functions of the state machine.
 */
module SessionOutcomes {
  import opened SessionMachine
  import opened SessionSafety
  import opened Wrappers

  /** All there is to a session apart from its workers. */
  datatype Seat = Seat(status: Option<Status>, slot: Option<Generation>, queued: Option<QueueEntry>, leased: bool)

  function Find<K, V>(m: map<K, V>, k: K): Option<V> {
    if k in m then Some(m[k]) else None
  }

  function SeatOf(m: Machine, sid: SessionId): Seat {
    Seat(Find(m.status, sid), Find(m.running, sid), Find(m.queued, sid), sid in m.leases)
  }

  /** The session's seat becomes this one, every other stays, and this is what happened. */
  ghost predicate Becomes(m: Machine, n: Machine, sid: SessionId, seat: Seat, events: seq<Event>) {
    && SeatOf(n, sid) == seat && n.history == m.history + events
    && forall other | other != sid :: SeatOf(n, other) == SeatOf(m, other)
  }

  /** A status no command and no frame changes any more. */
  predicate Over(s: Status) {
    s == Completed || s == Failed || s == Cancelled
  }

  /** The session's slot holds this worker, and the worker knows it. */
  predicate Holds(m: Machine, sid: SessionId, g: Generation) {
    sid in m.running && m.running[sid] == g && g in m.workers && m.workers[g].session == sid
  }

  function ReleasedIf(released: bool, sid: SessionId): seq<Event> {
    if released then [Released(sid)] else []
  }

  function ConfirmedIf(stopped: bool, g: Generation): seq<Event> {
    if stopped then [Confirmed(g)] else []
  }

  /** The worker after a termination of its tree was tried. */
  function Tried(w: Worker, stopped: bool): Worker {
    w.(confirmed := stopped, retry := !stopped)
  }

  // ---------------------------------------------------------------------------------------------
  // The small updates

  lemma Then(m: Machine, k: Machine, n: Machine, sid: SessionId, a: Seat, b: Seat, first: seq<Event>, second: seq<Event>)
    requires Becomes(m, k, sid, a, first) && Becomes(k, n, sid, b, second)
    ensures Becomes(m, n, sid, b, first + second)
  {
    assert m.history + first + second == m.history + (first + second);
  }

  lemma DequeueUpdate(m: Machine, sid: SessionId)
    ensures Becomes(m, Dequeue(m, sid), sid, SeatOf(m, sid).(queued := None), [])
  {
  }

  lemma StatusUpdate(m: Machine, sid: SessionId, s: Status)
    ensures Becomes(m, WithStatus(m, sid, s), sid, SeatOf(m, sid).(status := Some(s)), [])
  {
  }

  lemma ReleaseUpdate(m: Machine, sid: SessionId)
    ensures Becomes(m, Release(m, sid), sid, SeatOf(m, sid).(leased := false), ReleasedIf(sid in m.leases, sid))
    ensures SameWorkers(m, Release(m, sid))
  {
  }

  /** These updates change no worker, and no stop that is being waited for. */
  predicate SameWorkers(m: Machine, n: Machine) {
    n.workers == m.workers && n.stopping == m.stopping && n.nextGeneration == m.nextGeneration
  }

  /** The slot goes, the status is this, and the lease is released. */
  lemma FinishStopMeans(m: Machine, sid: SessionId, target: Status)
    ensures var seat := SeatOf(m, sid);
      && Becomes(
           m, FinishStop(m, sid, target), sid, Seat(Some(target), None, seat.queued, false), ReleasedIf(seat.leased, sid))
      && SameWorkers(m, FinishStop(m, sid, target))
  {
  }

  // ---------------------------------------------------------------------------------------------
  // Launching

  ghost predicate Launching(m: Machine, n: Machine, sid: SessionId, rollback: bool, answer: LaunchAnswer) {
    var seat, g := SeatOf(m, sid), m.nextGeneration;
    && n.stopping == m.stopping
    && match answer
       case NoProcess(persisted) =>
         && Becomes(
              m, n, sid, seat.(status := Some(Failed), leased := seat.leased && !persisted),
              ReleasedIf(seat.leased && persisted, sid))
         && n.workers == m.workers && n.nextGeneration == g
       case SetupFailed(true) =>
         && Becomes(
              m, n, sid, Seat(if rollback then None else Some(Failed), None, seat.queued, false),
              [Launched(sid, g), Confirmed(g)] + ReleasedIf(seat.leased, sid))
         && n.workers == m.workers[g := Worker(sid, NoReader, None, false, false, true, false, None)]
         && n.nextGeneration == g + 1
       case SetupFailed(false) =>
         && Becomes(m, n, sid, seat.(status := Some(Interrupted), slot := Some(g)), [Launched(sid, g)])
         && n.workers == m.workers[g := Worker(sid, NoReader, None, false, true, false, true, Some(rollback))]
         && n.nextGeneration == g + 1
       case Started =>
         && Becomes(m, n, sid, seat.(status := Some(Running), slot := Some(g)), [Launched(sid, g)])
         && n.workers == m.workers[g := Worker(sid, Reading, None, false, false, false, false, None)]
         && n.nextGeneration == g + 1
  }

  lemma LaunchMeans(m: Machine, sid: SessionId, rollback: bool, answer: LaunchAnswer)
    ensures Launching(m, Launch(m, sid, rollback, answer), sid, rollback, answer)
  {
    hide Launching, Launch;
    match answer {
      case NoProcess(persisted) => NoProcessMeans(m, sid, rollback, persisted);
      case SetupFailed(true) => StoppedSetupMeans(m, sid, rollback);
      case SetupFailed(false) => RunningSetupMeans(m, sid, rollback);
      case Started => StartedMeans(m, sid, rollback);
    }
  }

  lemma NoProcessMeans(m: Machine, sid: SessionId, rollback: bool, persisted: bool)
    ensures Launching(m, Launch(m, sid, rollback, NoProcess(persisted)), sid, rollback, NoProcess(persisted))
  {
  }

  lemma StartedMeans(m: Machine, sid: SessionId, rollback: bool)
    ensures Launching(m, Launch(m, sid, rollback, Started), sid, rollback, Started)
  {
  }

  lemma RunningSetupMeans(m: Machine, sid: SessionId, rollback: bool)
    ensures Launching(m, Launch(m, sid, rollback, SetupFailed(false)), sid, rollback, SetupFailed(false))
  {
  }

  lemma StoppedSetupMeans(m: Machine, sid: SessionId, rollback: bool)
    ensures Launching(m, Launch(m, sid, rollback, SetupFailed(true)), sid, rollback, SetupFailed(true))
  {
    hide FinalizeLaunchFailure;
    var g := m.nextGeneration;
    var dropped := Drop(Record(Spawn(WithStatus(m, sid, Running), sid), g, true), sid);
    assert Becomes(
      m, dropped, sid, SeatOf(m, sid).(status := Some(Running), slot := None), [Launched(sid, g), Confirmed(g)]);
    assert dropped.workers == m.workers[g := Worker(sid, NoReader, None, false, false, true, false, None)];
    FinalizeMeans(dropped, sid, rollback);
    Then(m, dropped, FinalizeLaunchFailure(dropped, sid, rollback), sid, SeatOf(dropped, sid),
      Seat(if rollback then None else Some(Failed), None, SeatOf(m, sid).queued, false),
      [Launched(sid, g), Confirmed(g)], ReleasedIf(sid in m.leases, sid));
  }

  lemma FinalizeMeans(m: Machine, sid: SessionId, rollback: bool)
    ensures var seat := SeatOf(m, sid);
      && Becomes(
           m, FinalizeLaunchFailure(m, sid, rollback), sid,
           seat.(status := if rollback then None else Some(Failed), leased := false), ReleasedIf(seat.leased, sid))
      && SameWorkers(m, FinalizeLaunchFailure(m, sid, rollback))
  {
  }

  /** Without capacity the launch is queued, and nothing else changes hands. */
  ghost predicate Scheduling(
    m: Machine, n: Machine, sid: SessionId, rollback: bool, granted: bool, answer: LaunchAnswer)
  {
    if granted then Launching(m, n, sid, rollback, answer)
    else
      && Becomes(m, n, sid, SeatOf(m, sid).(status := Some(Queued), queued := Some(QueuedLaunch(rollback))), [])
      && n.workers == m.workers && n.stopping == m.stopping && n.nextGeneration == m.nextGeneration
  }

  ghost predicate Starting(m: Machine, n: Machine, sid: SessionId, claimed: bool, granted: bool, answer: LaunchAnswer) {
    if sid in m.status || !claimed then n == m
    else Scheduling(m.(leases := m.leases + {sid}), n, sid, true, granted, answer)
  }

  ghost predicate Resuming(
    m: Machine, n: Machine, sid: SessionId, acquire: ResumeAnswer, granted: bool, answer: LaunchAnswer)
  {
    if sid in m.running || sid !in m.status || acquire == Unavailable then n == m
    else if acquire == Unrecoverable then
      && Becomes(m, n, sid, SeatOf(m, sid).(leased := false), [Released(sid)])
      && n.workers == m.workers && n.stopping == m.stopping
    else Scheduling(m.(leases := m.leases + {sid}), n, sid, false, granted, answer)
  }

  lemma ScheduleMeans(m: Machine, sid: SessionId, rollback: bool, granted: bool, answer: LaunchAnswer)
    ensures Scheduling(m, ScheduleSession(m, sid, rollback, granted, answer), sid, rollback, granted, answer)
  {
    LaunchMeans(m, sid, rollback, answer);
    hide Launch, Launching;
  }

  lemma StartMeans(m: Machine, sid: SessionId, claimed: bool, granted: bool, answer: LaunchAnswer)
    ensures Starting(m, StartSession(m, sid, claimed, granted, answer), sid, claimed, granted, answer)
  {
    ScheduleMeans(m.(leases := m.leases + {sid}), sid, true, granted, answer);
    hide ScheduleSession, Scheduling;
  }

  lemma ResumeMeans(m: Machine, sid: SessionId, acquire: ResumeAnswer, granted: bool, answer: LaunchAnswer)
    ensures Resuming(m, ResumeSession(m, sid, acquire, granted, answer), sid, acquire, granted, answer)
  {
    ScheduleMeans(m.(leases := m.leases + {sid}), sid, false, granted, answer);
    hide ScheduleSession, Scheduling;
  }

  // ---------------------------------------------------------------------------------------------
  // Failing, pausing and stopping

  /** The owner of the slot is given up: its session ends in this status, and the slot goes once it is stopped. */
  ghost predicate GivingUp(m: Machine, n: Machine, g: Generation, pausing: Status, other: Status, stopped: bool) {
    if g in m.workers && Holds(m, m.workers[g].session, g) && m.workers[g].session in m.status
       && !Over(m.status[m.workers[g].session])
    then
      var sid := m.workers[g].session;
      var seat := SeatOf(m, sid);
      && Becomes(
           m, n, sid,
           seat.(status := Some(if m.status[sid] == Pausing then pausing else other),
                 slot := if stopped then None else seat.slot),
           ConfirmedIf(stopped, g))
      && n.workers == m.workers[g := Tried(m.workers[g], stopped)] && n.stopping == m.stopping
    else n == m
  }

  lemma FailMeans(m: Machine, g: Generation, stopped: bool)
    ensures GivingUp(m, FailSession(m, g, stopped), g, Interrupted, Failed, stopped)
  {
  }

  lemma InterruptMeans(m: Machine, g: Generation, stopped: bool)
    ensures GivingUp(m, InterruptSession(m, g, stopped), g, Interrupted, Interrupted, stopped)
  {
  }

  ghost predicate AskingToPause(
    m: Machine, n: Machine, sid: SessionId, request: RequestId, written: bool, stopped: bool)
  {
    var seat := SeatOf(m, sid);
    && n.stopping == m.stopping
    && if seat.status.None? || seat.status.value == Pausing || seat.status.value == Paused || Over(seat.status.value)
       then n == m
       else if seat.slot.None? then
         if seat.queued.None? then n == m
         else
           && Becomes(m, n, sid, Seat(Some(Paused), None, None, false), ReleasedIf(seat.leased, sid))
           && n.workers == m.workers
       else
         var g := seat.slot.value;
         g in m.workers
         && var asked := m.workers[g].(pending := Some(Identity(Pause, g, request)));
            if written then
              && Becomes(m, n, sid, seat.(status := Some(Pausing), queued := None), [PauseSent(g, request)])
              && n.workers == m.workers[g := asked]
            else
              && Becomes(
                   m, n, sid,
                   seat.(status := Some(Interrupted), queued := None, slot := if stopped then None else seat.slot),
                   [PauseSent(g, request)] + ConfirmedIf(stopped, g))
              && n.workers == m.workers[g := Tried(asked, stopped)]
  }

  lemma PauseMeans(m: Machine, sid: SessionId, request: RequestId, written: bool, stopped: bool)
    requires SlotSound(m, sid)
    ensures AskingToPause(m, PauseSession(m, sid, request, written, stopped), sid, request, written, stopped)
  {
    hide Becomes, FailSession, Release, PauseAsked;
    if sid in m.running {
      AskedMeans(m, sid, m.running[sid], request, stopped);
    } else {
      PauseIdleMeans(m, sid);
    }
  }

  lemma PauseIdleMeans(m: Machine, sid: SessionId)
    requires sid !in m.running
    ensures var n := Release(WithStatus(Dequeue(m, sid), sid, Paused), sid);
      Becomes(m, n, sid, Seat(Some(Paused), None, None, false), ReleasedIf(sid in m.leases, sid)) && SameWorkers(m, n)
  {
  }

  /** The session once its worker has been asked to pause. */
  function PauseAsked(m: Machine, sid: SessionId, g: Generation, request: RequestId): Machine
    requires g in m.workers
  {
    var asked := WithWorker(m, g, m.workers[g].(pending := Some(Identity(Pause, g, request))));
    Log(WithStatus(Dequeue(asked, sid), sid, Pausing), PauseSent(g, request))
  }

  lemma AskedMeans(m: Machine, sid: SessionId, g: Generation, request: RequestId, stopped: bool)
    requires Holds(m, sid, g)
    ensures var seat, n := SeatOf(m, sid), PauseAsked(m, sid, g, request);
      var asked := m.workers[g].(pending := Some(Identity(Pause, g, request)));
      var failed := FailSession(n, g, stopped);
      && n == Log(WithStatus(Dequeue(WithWorker(m, g, asked), sid), sid, Pausing), PauseSent(g, request))
      && Becomes(m, n, sid, seat.(status := Some(Pausing), queued := None), [PauseSent(g, request)])
      && n.workers == m.workers[g := asked] && n.stopping == m.stopping
      && Becomes(
           m, failed, sid,
           seat.(status := Some(Interrupted), queued := None, slot := if stopped then None else seat.slot),
           [PauseSent(g, request)] + ConfirmedIf(stopped, g))
      && failed.workers == m.workers[g := Tried(asked, stopped)] && failed.stopping == m.stopping
  {
    hide FailSession;
    var n := PauseAsked(m, sid, g, request);
    FailMeans(n, g, stopped);
    var seat := SeatOf(n, sid);
    Then(m, n, FailSession(n, g, stopped), sid, seat,
      seat.(status := Some(Interrupted), slot := if stopped then None else seat.slot),
      [PauseSent(g, request)], ConfirmedIf(stopped, g));
  }

  /** Without a worker there is at most a queue entry to take back. */
  ghost predicate StopsIdle(m: Machine, n: Machine, sid: SessionId, command: Command, target: Status) {
    var seat := SeatOf(m, sid);
    && SameWorkers(m, n)
    && if seat.queued.Some? then
         Becomes(m, n, sid, Seat(Some(target), None, None, false), ReleasedIf(seat.leased, sid))
       else if seat.status == Some(Paused) || (seat.status == Some(Interrupted) && command != ForceStop) then
         Becomes(m, n, sid, Seat(Some(Cancelled), None, None, false), ReleasedIf(seat.leased, sid))
       else n == m
  }

  /** A live worker is told and waited for; a dead one leaves slot and lease once its tree is stopped. */
  ghost predicate StopsWorker(
    m: Machine, n: Machine, sid: SessionId, g: Generation, identity: Identity, target: Status, alive: bool,
    stopped: bool)
    requires g in m.workers
  {
    var seat := SeatOf(m, sid);
    if alive then
      && Becomes(m, n, sid, seat.(queued := None), [])
      && n.workers == m.workers[g := m.workers[g].(stopRequested := true, pending := Some(identity))]
      && n.stopping == m.stopping[identity.request := Stopping(sid, g, target)]
    else
      && n.stopping == m.stopping
      && if m.workers[g].confirmed then
           && Becomes(m, n, sid, Seat(Some(target), None, None, false), ReleasedIf(seat.leased, sid))
           && n.workers == m.workers
         else
           && Becomes(
                m, n, sid,
                if stopped then Seat(Some(target), None, None, false)
                else seat.(status := Some(Interrupted), queued := None),
                ConfirmedIf(stopped, g) + ReleasedIf(stopped && seat.leased, sid))
           && n.workers == m.workers[g := Tried(m.workers[g], stopped)]
  }

  ghost predicate Terminating(
    m: Machine, n: Machine, sid: SessionId, command: Command, target: Status, alive: bool, request: RequestId,
    stopped: bool)
  {
    if sid !in m.status || Over(m.status[sid]) then n == m
    else if sid !in m.running then StopsIdle(m, n, sid, command, target)
    else
      var g := m.running[sid];
      g in m.workers && StopsWorker(m, n, sid, g, Identity(command, g, request), target, alive, stopped)
  }

  lemma TerminateMeans(
    m: Machine, sid: SessionId, command: Command, target: Status, alive: bool, request: RequestId, stopped: bool)
    requires SlotSound(m, sid)
    ensures Terminating(
      m, TerminateSession(m, sid, command, target, alive, request, stopped), sid, command, target, alive, request,
      stopped)
  {
    hide StopsIdle, StopsWorker, StopIdle, StopWorker;
    if sid in m.running {
      StopWorkerMeans(m, sid, m.running[sid], Identity(command, m.running[sid], request), target, alive, stopped);
    } else if sid in m.status {
      StopIdleMeans(m, sid, command, target);
    }
  }

  lemma StopIdleMeans(m: Machine, sid: SessionId, command: Command, target: Status)
    requires sid in m.status && sid !in m.running
    ensures StopsIdle(m, StopIdle(m, sid, command, target), sid, command, target)
  {
    hide FinishStop, Release;
    var queue, cancelled := Dequeue(m, sid), WithStatus(m, sid, Cancelled);
    FinishStopMeans(queue, sid, target);
    DequeueUpdate(m, sid);
    StatusUpdate(m, sid, Cancelled);
    ReleaseUpdate(cancelled, sid);
    Then(m, queue, FinishStop(queue, sid, target), sid, SeatOf(queue, sid), SeatOf(FinishStop(queue, sid, target), sid),
      [], ReleasedIf(sid in m.leases, sid));
    Then(m, cancelled, Release(cancelled, sid), sid, SeatOf(cancelled, sid), SeatOf(Release(cancelled, sid), sid),
      [], ReleasedIf(sid in m.leases, sid));
    assert [] + ReleasedIf(sid in m.leases, sid) == ReleasedIf(sid in m.leases, sid);
  }

  lemma StopWorkerMeans(
    m: Machine, sid: SessionId, g: Generation, identity: Identity, target: Status, alive: bool, stopped: bool)
    requires Holds(m, sid, g)
    ensures StopsWorker(
      m, StopWorker(Dequeue(m, sid), sid, g, identity, target, alive, stopped), sid, g, identity, target, alive, stopped)
  {
    hide FinishStop;
    var queue, seat := Dequeue(m, sid), SeatOf(m, sid);
    if !alive && m.workers[g].confirmed {
      FinishStopMeans(queue, sid, target);
      Then(m, queue, FinishStop(queue, sid, target), sid, seat.(queued := None), Seat(Some(target), None, None, false),
        [], ReleasedIf(seat.leased, sid));
      assert [] + ReleasedIf(seat.leased, sid) == ReleasedIf(seat.leased, sid);
    } else if !alive {
      DeadWorkerMeans(m, sid, g, target, stopped);
    }
  }

  lemma DeadWorkerMeans(m: Machine, sid: SessionId, g: Generation, target: Status, stopped: bool)
    requires Holds(m, sid, g)
    ensures var seat, tried := SeatOf(m, sid), Record(Dequeue(m, sid), g, stopped);
      var n := if stopped then FinishStop(tried, sid, target) else WithStatus(tried, sid, Interrupted);
      && Becomes(
           m, n, sid,
           if stopped then Seat(Some(target), None, None, false) else seat.(status := Some(Interrupted), queued := None),
           ConfirmedIf(stopped, g) + ReleasedIf(stopped && seat.leased, sid))
      && n.workers == m.workers[g := Tried(m.workers[g], stopped)] && n.stopping == m.stopping
  {
    hide FinishStop;
    var seat, tried := SeatOf(m, sid), Record(Dequeue(m, sid), g, stopped);
    assert Becomes(m, tried, sid, seat.(queued := None), ConfirmedIf(stopped, g));
    if stopped {
      FinishStopMeans(tried, sid, target);
      Then(m, tried, FinishStop(tried, sid, target), sid, seat.(queued := None), Seat(Some(target), None, None, false),
        [Confirmed(g)], ReleasedIf(seat.leased, sid));
    }
  }

  /** What a stop leads to is cancelled for a cancellation, and interrupted otherwise. */
  lemma StopTargets()
    ensures StopTarget(Cancel) == Cancelled && StopTarget(ForceStop) == Interrupted && StopTarget(Shutdown) == Interrupted
  {
  }

  ghost predicate EndingStop(m: Machine, n: Machine, request: RequestId, stopped: bool) {
    if request !in m.stopping || m.stopping[request].generation !in m.workers then n == m
    else
      var sid, g, target := m.stopping[request].session, m.stopping[request].generation, m.stopping[request].target;
      var seat := SeatOf(m, sid);
      && n.stopping == m.stopping - {request} && n.workers == m.workers[g := Tried(m.workers[g], stopped)]
      && Becomes(
           m, n, sid,
           if seat.status.None? then seat.(slot := if stopped then None else seat.slot)
           else if stopped then Seat(Some(target), None, seat.queued, false)
           else seat.(status := Some(Interrupted)),
           ConfirmedIf(stopped, g) + ReleasedIf(stopped && seat.status.Some? && seat.leased, sid))
  }

  lemma EndStopMeans(m: Machine, request: RequestId, stopped: bool)
    ensures EndingStop(m, EndTermination(m, request, stopped), request, stopped)
  {
  }

  /** Input is accepted only from a session that waits for it with a worker, and waits for its turn. */
  ghost predicate TakingInput(m: Machine, n: Machine, sid: SessionId) {
    var seat := SeatOf(m, sid);
    if seat.status == Some(WaitingForInput) && seat.slot.Some? then
      && Becomes(m, n, sid, seat.(status := Some(Queued), queued := Some(QueuedInput)), [])
      && n.workers == m.workers && n.stopping == m.stopping
    else n == m
  }

  lemma InputMeans(m: Machine, sid: SessionId)
    ensures TakingInput(m, ProvideInput(m, sid), sid)
  {
  }

  // ---------------------------------------------------------------------------------------------
  // Frames

  ghost predicate OnlyStatus(m: Machine, n: Machine, sid: SessionId, s: Status) {
    Becomes(m, n, sid, SeatOf(m, sid).(status := Some(s)), []) && SameWorkers(m, n)
  }

  /** The session gets this status, and its worker is not expected to go on. */
  ghost predicate LastStatus(m: Machine, n: Machine, sid: SessionId, g: Generation, s: Status)
    requires g in m.workers
  {
    && Becomes(m, n, sid, SeatOf(m, sid).(status := Some(s)), [])
    && n.workers == m.workers[g := m.workers[g].(stopRequested := true)] && n.stopping == m.stopping
  }

  /** What a frame does that is acted on. */
  ghost predicate Acting(m: Machine, n: Machine, g: Generation, f: Frame, stopped: bool)
    requires g in m.workers && m.workers[g].session in m.status
  {
    var w, sid := m.workers[g], m.workers[g].session;
    var pausing := m.status[sid] == Pausing;
    match f
    case Diagnostic => n == m
    case Progress => n == m
    case StatusRunning(capacityOwned) => if capacityOwned then OnlyStatus(m, n, sid, Running) else n == m
    case InputRequest => OnlyStatus(m, n, sid, WaitingForInput)
    case Checkpoint(identity, evidenceMatches) =>
      if pausing && evidenceMatches then
        && Becomes(m, n, sid, SeatOf(m, sid), [CheckpointAccepted(g, identity, true)])
        && n.workers == m.workers[g := w.(checkpointed := true)] && n.stopping == m.stopping
      else GivingUp(m, n, g, Interrupted, Failed, stopped)
    case CheckpointFailure(_) =>
      if pausing then OnlyStatus(m, n, sid, Interrupted) else GivingUp(m, n, g, Interrupted, Failed, stopped)
    case Termination(identity) =>
      if w.pending == Some(identity) then n == m else GivingUp(m, n, g, Interrupted, Failed, stopped)
    case Completion(exitCode, unfinished) =>
      && (exitCode != 0 ==> LastStatus(m, n, sid, g, Failed))
      && (exitCode == 0 && unfinished ==> LastStatus(m, n, sid, g, Status.Ready))
      && (exitCode == 0 && !unfinished ==> LastStatus(m, n, sid, g, Completed))
    case Failure => LastStatus(m, n, sid, g, Failed)
  }

  lemma AcceptMeans(m: Machine, g: Generation, f: Frame, stopped: bool)
    requires Owns(m, g) && m.workers[g].session in m.status
    ensures Acting(m, Accept(m, g, f, stopped), g, f, stopped)
  {
    FailMeans(m, g, stopped);
    hide GivingUp, FailSession;
  }

  /** The frame answers what the worker was asked, so far as its kind goes. */
  predicate AnswersKind(pending: Identity, f: Frame) {
    if pending.action == Pause then f.Checkpoint? || f.CheckpointFailure? else f.Termination?
  }

  /**
   With nothing pending every frame is acted on. While an answer is awaited only that answer and
   diagnostics are; a wrong answer to a pause interrupts it, and every other frame is dropped.
   */
  ghost predicate Framing(m: Machine, n: Machine, g: Generation, f: Frame, stopped: bool)
    requires g in m.workers && m.workers[g].session in m.status
  {
    match m.workers[g].pending
    case None => Acting(m, n, g, f, stopped)
    case Some(pending) =>
      if AnswersKind(pending, f) then
        if f.identity == pending && pending.generation == g then Acting(m, n, g, f, stopped)
        else if pending.action == Pause then LastStatus(m, n, m.workers[g].session, g, Interrupted)
        else n == m
      else n == m
  }

  lemma FrameMeans(m: Machine, g: Generation, f: Frame, stopped: bool)
    requires Owns(m, g) && m.workers[g].session in m.status
    ensures Framing(m, ApplyFrame(m, g, f, stopped), g, f, stopped)
  {
    AcceptMeans(m, g, f, stopped);
    if m.workers[g].pending.Some? && m.workers[g].pending.value.action.Pause? {
      MismatchMeans(m, g);
    }
    hide Accept, Acting, Mismatch, LastStatus;
    DiagnosticIsIgnored(m, g, stopped);
  }

  lemma MismatchMeans(m: Machine, g: Generation)
    requires Owns(m, g) && m.workers[g].session in m.status
    requires m.workers[g].pending.Some? && m.workers[g].pending.value.action.Pause?
    ensures LastStatus(m, Mismatch(m, g), m.workers[g].session, g, Interrupted)
  {
  }

  lemma DiagnosticIsIgnored(m: Machine, g: Generation, stopped: bool)
    requires Owns(m, g) && m.workers[g].session in m.status
    ensures Accept(m, g, Diagnostic, stopped) == m
  {
  }

  // ---------------------------------------------------------------------------------------------
  // Readers

  /** Only the reader of this worker has moved on. */
  ghost predicate ReaderMoves(m: Machine, n: Machine, g: Generation, reader: Reader)
    requires g in m.workers
  {
    n == m.(workers := m.workers[g := m.workers[g].(reader := reader)])
  }

  predicate IsReading(m: Machine, g: Generation) {
    g in m.workers && m.workers[g].reader == Reader.Reading
  }

  /** The worker whose frames are still heeded: it owns the slot of a known session that is not over. */
  predicate Heeded(m: Machine, g: Generation)
    requires g in m.workers
  {
    var sid := m.workers[g].session;
    Holds(m, sid, g) && sid in m.status && !Over(m.status[sid])
  }

  /** After these frames the reader leaves. */
  predicate IsLast(pending: Option<Identity>, f: Frame) {
    f.Checkpoint? || f.CheckpointFailure? || f.Completion? || f.Failure? || (f.Termination? && pending.None?)
  }

  ghost predicate ReadingFrame(m: Machine, n: Machine, g: Generation, f: Frame, stopped: bool) {
    if !IsReading(m, g) then n == m
    else if !Heeded(m, g) then ReaderMoves(m, n, g, Leaving)
    else
      exists k: Machine :: Framing(m, k, g, f, stopped) && g in k.workers
        && if IsLast(m.workers[g].pending, f) then ReaderMoves(k, n, g, Leaving) else n == k
  }

  lemma ReadMeans(m: Machine, g: Generation, f: Frame, stopped: bool)
    ensures ReadingFrame(m, ReadFrame(m, g, f, stopped), g, f, stopped)
  {
    if IsReading(m, g) && Heeded(m, g) {
      FrameMeans(m, g, f, stopped);
      FrameKeepsWorker(m, g, f, stopped);
      hide ApplyFrame, Framing;
      var k := ApplyFrame(m, g, f, stopped);
      assert Framing(m, k, g, f, stopped);
    }
  }

  lemma FrameKeepsWorker(m: Machine, g: Generation, f: Frame, stopped: bool)
    requires Owns(m, g) && m.workers[g].session in m.status
    ensures g in ApplyFrame(m, g, f, stopped).workers
  {
    hide Accept;
    AcceptKeepsWorker(m, g, f, stopped);
  }

  lemma AcceptKeepsWorker(m: Machine, g: Generation, f: Frame, stopped: bool)
    requires Owns(m, g) && m.workers[g].session in m.status
    ensures g in Accept(m, g, f, stopped).workers
  {
    hide FailSession;
    FailKeepsWorker(m, g, stopped);
  }

  lemma FailKeepsWorker(m: Machine, g: Generation, stopped: bool)
    requires g in m.workers
    ensures g in FailSession(m, g, stopped).workers && g in InterruptSession(m, g, stopped).workers
  {
  }

  /** A broken stream fails the session; one that just ends interrupts it unless it was expected to. */
  ghost predicate LosingStream(m: Machine, n: Machine, g: Generation, failed: bool, stopped: bool) {
    if !IsReading(m, g) then n == m
    else
      var sid := m.workers[g].session;
      exists k: Machine :: g in k.workers && ReaderMoves(k, n, g, Leaving)
        && if failed then GivingUp(m, k, g, Interrupted, Failed, stopped)
           else if Holds(m, sid, g) && sid in m.status && m.status[sid] != Pausing && m.status[sid] != Interrupted
                   && !m.workers[g].stopRequested
           then GivingUp(m, k, g, Interrupted, Interrupted, stopped)
           else k == m
  }

  lemma StreamMeans(m: Machine, g: Generation, stopped: bool)
    ensures LosingStream(m, ReadError(m, g, stopped), g, true, stopped)
    ensures LosingStream(m, ReadEnd(m, g, stopped), g, false, stopped)
  {
    if IsReading(m, g) {
      FailMeans(m, g, stopped);
      InterruptMeans(m, g, stopped);
      FailKeepsWorker(m, g, stopped);
      hide FailSession, InterruptSession, GivingUp;
      assert ReaderMoves(FailSession(m, g, stopped), ReadError(m, g, stopped), g, Leaving);
      var k := if Owns(m, g) && m.workers[g].session in m.status && m.status[m.workers[g].session] != Pausing
                  && m.status[m.workers[g].session] != Interrupted && !m.workers[g].stopRequested
               then InterruptSession(m, g, stopped) else m;
      assert ReaderMoves(k, ReadEnd(m, g, stopped), g, Leaving);
    }
  }

  ghost predicate Reaping(m: Machine, n: Machine, g: Generation, stopped: bool) {
    if g !in m.workers || m.workers[g].reader != Leaving then n == m
    else
      && n.workers == m.workers[g := Tried(m.workers[g], stopped).(reader := Reaped(stopped))]
      && Becomes(m, n, m.workers[g].session, SeatOf(m, m.workers[g].session), ConfirmedIf(stopped, g))
      && n.stopping == m.stopping
  }

  lemma ReapMeans(m: Machine, g: Generation, stopped: bool)
    ensures Reaping(m, ReapWorker(m, g, stopped), g, stopped)
  {
  }

  /**
   What the end of its reader makes of the owner of a slot, its tree stopped or not. A checkpointed owner
   pauses its session or interrupts it; one that was told to stop, or whose session is over or
   interrupted, leaves the slot or is to be cleaned up again; any other is left alone.
   */
  ghost predicate LeavingSlot(m: Machine, n: Machine, g: Generation, stopped: bool)
    requires g in m.workers && m.workers[g].session in m.status
  {
    var w, sid := m.workers[g], m.workers[g].session;
    var seat, status := SeatOf(m, sid), m.status[sid];
    var expected := Over(status) || status == Interrupted || w.stopRequested;
    && n.stopping == m.stopping
    && (w.checkpointed && stopped ==>
          && Becomes(m, n, sid, seat.(status := Some(Paused), slot := None), [Confirmed(g), PausedBy(sid, g)])
          && n.workers == m.workers[g := Tried(w, true)])
    && (w.checkpointed && !stopped ==>
          && Becomes(m, n, sid, seat.(status := Some(Interrupted)), [])
          && n.workers == m.workers[g := Tried(w, false)])
    && (!w.checkpointed && expected && stopped ==>
          Becomes(m, n, sid, seat.(slot := None), []) && n.workers == m.workers)
    && (!w.checkpointed && expected && !stopped ==>
          Becomes(m, n, sid, seat, []) && n.workers == m.workers[g := Tried(w, false)])
    && (!w.checkpointed && !expected ==> n == m)
  }

  lemma LeaveMeans(m: Machine, g: Generation, stopped: bool)
    requires Owns(m, g) && m.workers[g].session in m.status
    ensures LeavingSlot(m, LeaveSlot(m, g, stopped), g, stopped)
    ensures g in LeaveSlot(m, g, stopped).workers && m.workers[g].session in LeaveSlot(m, g, stopped).status
  {
  }

  /** The lease goes with an empty slot, a confirmed worker and a session that is at rest. */
  ghost predicate ReleasingAtRest(m: Machine, n: Machine, g: Generation)
    requires g in m.workers && m.workers[g].session in m.status
  {
    var sid := m.workers[g].session;
    var status := m.status[sid];
    if sid !in m.running && m.workers[g].confirmed && status != Running && status != Pausing && status != Queued then
      Becomes(m, n, sid, SeatOf(m, sid).(leased := false), ReleasedIf(sid in m.leases, sid)) && SameWorkers(m, n)
    else n == m
  }

  /** The end of a reader that measured its tree: first the slot, if its worker owns it, then the lease. */
  ghost predicate ReaderEnds(m: Machine, n: Machine, g: Generation) {
    if g !in m.workers || !m.workers[g].reader.Reaped? then n == m
    else
      var sid, stopped := m.workers[g].session, m.workers[g].reader.stopped;
      var left := m.(workers := m.workers[g := m.workers[g].(reader := Gone)]);
      if sid !in m.status then n == left
      else
        exists k: Machine ::
          && g in k.workers && k.workers[g].session in k.status && ReleasingAtRest(k, n, g)
          && if Holds(m, sid, g) then LeavingSlot(left, k, g, stopped) else k == left
  }

  lemma FinishMeans(m: Machine, g: Generation)
    ensures ReaderEnds(m, FinishReader(m, g), g)
  {
    hide LeaveSlot, LeavingSlot, Release, ReleasingAtRest;
    if g in m.workers && m.workers[g].reader.Reaped? && m.workers[g].session in m.status {
      var left := WithWorker(m, g, m.workers[g].(reader := Gone));
      if Owns(m, g) {
        LeaveMeans(left, g, m.workers[g].reader.stopped);
        LeavingKeepsSession(left, g, m.workers[g].reader.stopped);
      }
      var k := if Owns(m, g) then LeaveSlot(left, g, m.workers[g].reader.stopped) else left;
      RestMeans(k, g);
    }
  }

  lemma RestMeans(m: Machine, g: Generation)
    requires g in m.workers && m.workers[g].session in m.status
    ensures var sid := m.workers[g].session;
      var n := if sid !in m.running && m.workers[g].confirmed && !m.status[sid].Running? && !m.status[sid].Pausing?
                  && !m.status[sid].Queued?
               then Release(m, sid) else m;
      ReleasingAtRest(m, n, g)
  {
  }

  lemma LeavingKeepsSession(m: Machine, g: Generation, stopped: bool)
    requires Owns(m, g) && m.workers[g].session in m.status
    ensures g in LeaveSlot(m, g, stopped).workers
    ensures LeaveSlot(m, g, stopped).workers[g].session == m.workers[g].session
  {
  }

  // ---------------------------------------------------------------------------------------------
  // The scheduler

  /** A cleanup that is due tries again; once stopped, slot and lease go, and a launch is undone. */
  ghost predicate Retrying(m: Machine, n: Machine, sid: SessionId, stopped: bool) {
    var seat := SeatOf(m, sid);
    if sid in m.running && m.running[sid] in m.workers && sid in m.status
       && !m.workers[m.running[sid]].confirmed && m.workers[m.running[sid]].retry
       && (Over(m.status[sid]) || m.status[sid] == Interrupted)
    then
      var g, w := m.running[sid], m.workers[m.running[sid]];
      var status := match w.rollback case None => seat.status case Some(true) => None case Some(false) => Some(Failed);
      && Becomes(
           m, n, sid, if stopped then Seat(status, None, seat.queued, false) else seat,
           ConfirmedIf(stopped, g) + ReleasedIf(stopped && seat.leased, sid))
      && n.workers == m.workers[g := Tried(w, stopped)] && n.stopping == m.stopping
    else n == m
  }

  lemma RetryMeans(m: Machine, sid: SessionId, stopped: bool)
    ensures Retrying(m, RetryCleanup(m, sid, stopped), sid, stopped)
  {
    hide FinalizeLaunchFailure, Release;
    if stopped && sid in m.running && m.running[sid] in m.workers && sid in m.status {
      var g, w, seat := m.running[sid], m.workers[m.running[sid]], SeatOf(m, sid);
      var k := Drop(Record(m, g, true), sid);
      assert Becomes(m, k, sid, seat.(slot := None), [Confirmed(g)]);
      hide Becomes;
      var undone, released := FinalizeLaunchFailure(k, sid, w.rollback == Some(true)), Release(k, sid);
      FinalizeMeans(k, sid, w.rollback == Some(true));
      ReleaseUpdate(k, sid);
      assert SeatOf(k, sid) == seat.(slot := None);
      Then(m, k, undone, sid, seat.(slot := None),
        Seat(if w.rollback == Some(true) then None else Some(Failed), None, seat.queued, false),
        [Confirmed(g)], ReleasedIf(seat.leased, sid));
      Then(m, k, released, sid, seat.(slot := None), Seat(seat.status, None, seat.queued, false),
        [Confirmed(g)], ReleasedIf(seat.leased, sid));
    }
  }

  /** A queue entry is served once capacity is granted: it launches, or its input is written. */
  ghost predicate Serving(
    m: Machine, n: Machine, sid: SessionId, capacity: CapacityAnswer, answer: LaunchAnswer, written: bool,
    stopped: bool)
  {
    if sid !in m.queued || capacity == NotGranted then n == m
    else
      var k := m.(queued := m.queued - {sid});
      if capacity == RequestFailed then OnlyStatus(k, n, sid, Failed)
      else
        match m.queued[sid]
        case QueuedLaunch(rollback) => Launching(k, n, sid, rollback, answer)
        case QueuedInput =>
          if sid !in m.running then OnlyStatus(k, n, sid, Failed)
          else if written then OnlyStatus(k, n, sid, Running)
          else GivingUp(k, n, m.running[sid], Interrupted, Failed, stopped)
  }

  lemma StatusMeans(m: Machine, sid: SessionId, s: Status)
    ensures OnlyStatus(m, WithStatus(m, sid, s), sid, s)
  {
  }

  lemma QueueMeans(
    m: Machine, sid: SessionId, capacity: CapacityAnswer, answer: LaunchAnswer, written: bool, stopped: bool)
    ensures Serving(m, RunQueued(m, sid, capacity, answer, written, stopped), sid, capacity, answer, written, stopped)
  {
    hide Launch, Launching, FailSession, GivingUp, OnlyStatus;
    var k := Dequeue(m, sid);
    StatusMeans(k, sid, Failed);
    StatusMeans(k, sid, Running);
    if sid in m.queued {
      if m.queued[sid].QueuedLaunch? {
        LaunchMeans(k, sid, m.queued[sid].rollback, answer);
      } else if sid in m.running {
        FailMeans(k, m.running[sid], stopped);
      }
    }
  }

  // ---------------------------------------------------------------------------------------------
  // Whole courses

  /** A checkpointed owner's end completes the pause if its tree is stopped, and interrupts it otherwise. */
  lemma CheckpointedOwnerEnds(m: Machine, sid: SessionId, g: Generation)
    requires Holds(m, sid, g) && sid in m.status && m.workers[g].checkpointed && m.workers[g].reader.Reaped?
    ensures var n, seat := FinishReader(m, g), SeatOf(m, sid);
      if m.workers[g].reader == Reaped(true) then
        && SeatOf(n, sid) == Seat(Some(Paused), None, seat.queued, false)
        && n.history == m.history + [Confirmed(g), PausedBy(sid, g)] + ReleasedIf(seat.leased, sid)
      else SeatOf(n, sid) == seat.(status := Some(Interrupted)) && n.history == m.history
  {
  }

  /** The session as its seat says, with a worker that is this far. */
  predicate At(m: Machine, sid: SessionId, g: Generation, seat: Seat, w: Worker) {
    Holds(m, sid, g) && m.workers[g] == w && SeatOf(m, sid) == seat
  }

  /** The worker may be asked anything: it runs, its reader reads, and nothing is awaited of it. */
  predicate Idle(w: Worker) {
    w.reader == Reader.Reading && w.pending.None? && !w.checkpointed && !w.stopRequested && !w.confirmed
  }

  lemma ReapedAt(m: Machine, sid: SessionId, g: Generation, seat: Seat, w: Worker, stopped: bool)
    requires At(m, sid, g, seat, w) && w.reader == Leaving
    ensures At(Next(m, Reap(g, stopped)), sid, g, seat, Tried(w, stopped).(reader := Reaped(stopped)))
    ensures Next(m, Reap(g, stopped)).history == m.history + ConfirmedIf(stopped, g)
  {
  }

  function PauseSteps(sid: SessionId, g: Generation, request: RequestId, stopped: bool): seq<Step> {
    [Step.AskPause(sid, request, true, true), FrameRead(g, Checkpoint(Identity(Pause, g, request), true), true),
     StreamEnded(g, true), Reap(g, stopped), ReaderFinishes(g)]
  }

  /**
   A running session that is asked to pause, answers with its checkpoint and ends is paused, out of its
   slot and without its lease; if its tree cannot be stopped it is interrupted and keeps both.
   */
  lemma PauseCompletes(m: Machine, sid: SessionId, g: Generation, seat: Seat, w: Worker, request: RequestId, stopped: bool)
    requires At(m, sid, g, seat, w) && Idle(w)
    requires seat.status == Some(Running) || seat.status == Some(WaitingForInput)
    ensures var n := After(m, PauseSteps(sid, g, request, stopped));
      if stopped then SeatOf(n, sid) == Seat(Some(Paused), None, None, false) && PausedBy(sid, g) in n.history
      else SeatOf(n, sid) == Seat(Some(Interrupted), Some(g), None, seat.leased)
  {
    var s := PauseSteps(sid, g, request, stopped);
    var waiting := seat.(status := Some(Pausing), queued := None);
    var asked := w.(pending := Some(Identity(Pause, g, request)));
    var answered := asked.(checkpointed := true, reader := Leaving);
    var m1 := Next(m, s[0]);
    assert At(m1, sid, g, waiting, asked) by {
      PauseIsAsked(m, sid, g, seat, w, request);
    }
    var m2 := Next(m1, s[1]);
    assert At(m2, sid, g, waiting, answered) by {
      CheckpointIsTaken(m1, sid, g, waiting, asked, request);
    }
    assert Next(m2, s[2]) == m2;
    hide Next, At;
    ReapedAt(m2, sid, g, waiting, answered, stopped);
    var m4 := Next(m2, s[3]);
    PausedAtLast(m4, sid, g, waiting, Tried(answered, stopped).(reader := Reaped(stopped)));
    RaceRuns(m, s);
  }

  lemma PauseIsAsked(m: Machine, sid: SessionId, g: Generation, seat: Seat, w: Worker, request: RequestId)
    requires At(m, sid, g, seat, w) && (seat.status == Some(Running) || seat.status == Some(WaitingForInput))
    ensures At(
      Next(m, Step.AskPause(sid, request, true, true)), sid, g, seat.(status := Some(Pausing), queued := None),
      w.(pending := Some(Identity(Pause, g, request))))
  {
  }

  lemma CheckpointIsTaken(m: Machine, sid: SessionId, g: Generation, seat: Seat, w: Worker, request: RequestId)
    requires At(m, sid, g, seat, w) && seat.status == Some(Pausing) && w.reader == Reader.Reading
    requires w.pending == Some(Identity(Pause, g, request))
    ensures At(
      Next(m, FrameRead(g, Checkpoint(Identity(Pause, g, request), true), true)), sid, g, seat,
      w.(checkpointed := true, reader := Leaving))
  {
  }

  lemma PausedAtLast(m: Machine, sid: SessionId, g: Generation, seat: Seat, w: Worker)
    requires At(m, sid, g, seat, w) && seat.status.Some? && w.checkpointed && w.reader.Reaped?
    ensures var n := Next(m, ReaderFinishes(g));
      if w.reader.stopped then
        SeatOf(n, sid) == Seat(Some(Paused), None, seat.queued, false) && PausedBy(sid, g) in n.history
      else SeatOf(n, sid) == seat.(status := Some(Interrupted))
  {
    CheckpointedOwnerEnds(m, sid, g);
    hide FinishReader;
  }

  /** A worker that reports its end leaves its session failed, ready or completed, and then its slot. */
  lemma CompletionEnds(
    m: Machine, sid: SessionId, g: Generation, seat: Seat, w: Worker, exitCode: int, unfinished: bool, stopped: bool)
    requires At(m, sid, g, seat, w) && Idle(w)
    requires seat.status == Some(Running) || seat.status == Some(WaitingForInput)
    ensures var s := [FrameRead(g, Completion(exitCode, unfinished), true), Reap(g, stopped), ReaderFinishes(g)];
      var n := Next(Next(Next(m, s[0]), s[1]), s[2]);
      var status := if exitCode != 0 then Failed else if unfinished then Status.Ready else Completed;
      SeatOf(n, sid)
      == if stopped then Seat(Some(status), None, seat.queued, false) else seat.(status := Some(status))
  {
    var status := if exitCode != 0 then Failed else if unfinished then Status.Ready else Completed;
    var m1 := Next(m, FrameRead(g, Completion(exitCode, unfinished), true));
    var over := w.(stopRequested := true, reader := Leaving);
    CompletionIsTaken(m, sid, g, seat, w, exitCode, unfinished);
    hide Next, At;
    ReapedAt(m1, sid, g, seat.(status := Some(status)), over, stopped);
    OrderlyEnd(
      Next(m1, Reap(g, stopped)), sid, g, seat.(status := Some(status)), Tried(over, stopped).(reader := Reaped(stopped)));
  }

  lemma CompletionIsTaken(
    m: Machine, sid: SessionId, g: Generation, seat: Seat, w: Worker, exitCode: int, unfinished: bool)
    requires At(m, sid, g, seat, w) && Idle(w)
    requires seat.status == Some(Running) || seat.status == Some(WaitingForInput)
    ensures var status := if exitCode != 0 then Failed else if unfinished then Status.Ready else Completed;
      At(
        Next(m, FrameRead(g, Completion(exitCode, unfinished), true)), sid, g, seat.(status := Some(status)),
        w.(stopRequested := true, reader := Leaving))
  {
  }

  lemma OrderlyEnd(m: Machine, sid: SessionId, g: Generation, seat: Seat, w: Worker)
    requires At(m, sid, g, seat, w) && !w.checkpointed && w.stopRequested && w.reader.Reaped?
    requires w.reader.stopped ==> w.confirmed
    requires seat.status == Some(Status.Ready) || seat.status == Some(Completed) || seat.status == Some(Failed)
    ensures SeatOf(Next(m, ReaderFinishes(g)), sid)
         == if w.reader.stopped then Seat(seat.status, None, seat.queued, false) else seat
  {
  }

  /** A stop ends in the status it asks for, out of the slot and without the lease, once the tree is stopped. */
  lemma StopCompletes(
    m: Machine, sid: SessionId, g: Generation, seat: Seat, w: Worker, command: StopCommand, request: RequestId,
    stopped: bool)
    requires At(m, sid, g, seat, w) && seat.status.Some? && !Over(seat.status.value)
    ensures var n := Next(Next(m, Stop(sid, command, true, request, true)), StopEnds(request, stopped));
      SeatOf(n, sid)
      == if stopped then Seat(Some(if command == Cancel then Cancelled else Interrupted), None, None, false)
         else seat.(status := Some(Interrupted), queued := None)
  {
    var m1 := Next(m, Stop(sid, command, true, request, true));
    assert At(m1, sid, g, seat.(queued := None), m1.workers[g]);
    assert request in m1.stopping && m1.stopping[request] == Stopping(sid, g, StopTarget(command));
    EndStopMeans(m1, request, stopped);
    hide EndTermination;
  }

  /** A session that asked for input and got it runs again in its slot. */
  lemma InputIsDelivered(m: Machine, sid: SessionId, g: Generation, seat: Seat, w: Worker, answer: LaunchAnswer)
    requires At(m, sid, g, seat, w) && Idle(w) && seat.status == Some(Running) && seat.queued.None?
    ensures var asked := Next(m, FrameRead(g, InputRequest, true));
      var given := Next(asked, Input(sid));
      && SeatOf(asked, sid).status == Some(WaitingForInput)
      && SeatOf(given, sid) == seat.(status := Some(Queued), queued := Some(QueuedInput))
      && SeatOf(Next(given, QueueServed(sid, Granted, answer, true, true)), sid) == seat
  {
    InputIsRequested(m, sid, g, seat, w);
    var asked := Next(m, FrameRead(g, InputRequest, true));
    InputIsTaken(asked, sid, g, seat.(status := Some(WaitingForInput)), w);
    InputIsWritten(
      Next(asked, Input(sid)), sid, g, seat.(status := Some(Queued), queued := Some(QueuedInput)), w, answer);
    hide Next;
  }

  lemma InputIsRequested(m: Machine, sid: SessionId, g: Generation, seat: Seat, w: Worker)
    requires At(m, sid, g, seat, w) && Idle(w) && seat.status == Some(Running)
    ensures At(Next(m, FrameRead(g, InputRequest, true)), sid, g, seat.(status := Some(WaitingForInput)), w)
  {
  }

  lemma InputIsTaken(m: Machine, sid: SessionId, g: Generation, seat: Seat, w: Worker)
    requires At(m, sid, g, seat, w) && seat.status == Some(WaitingForInput)
    ensures At(Next(m, Input(sid)), sid, g, seat.(status := Some(Queued), queued := Some(QueuedInput)), w)
  {
  }

  lemma InputIsWritten(m: Machine, sid: SessionId, g: Generation, seat: Seat, w: Worker, answer: LaunchAnswer)
    requires At(m, sid, g, seat, w) && seat.queued == Some(QueuedInput)
    ensures At(
      Next(m, QueueServed(sid, Granted, answer, true, true)), sid, g, seat.(status := Some(Running), queued := None), w)
  {
  }

  /** A new session without capacity waits with its lease, and starts once it is served. */
  lemma QueuedSessionStarts(m: Machine, sid: SessionId)
    requires sid !in m.status && sid !in m.running
    ensures var queued := Next(m, Step.Start(sid, true, false, Started));
      var n := Next(queued, QueueServed(sid, Granted, Started, true, true));
      && SeatOf(queued, sid) == Seat(Some(Queued), None, Some(QueuedLaunch(true)), true)
      && SeatOf(n, sid) == Seat(Some(Running), Some(m.nextGeneration), None, true)
      && ReadsForSession(n, sid, m.nextGeneration)
  {
    var queued := Next(m, Step.Start(sid, true, false, Started));
    assert SeatOf(queued, sid) == Seat(Some(Queued), None, Some(QueuedLaunch(true)), true);
    QueuedLaunchFills(queued, sid);
    QueueMeans(queued, sid, Granted, Started, true, true);
    hide RunQueued;
  }
}
