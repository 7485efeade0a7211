/**
 The supervisor object: its methods update the sessions in place, one critical section each, and do
 to them what the state machine says (src/devloop/portable_sessions.py:852-2329, 3057-3507).
 */
module SessionSupervisor {
  import opened SessionMachine
  import opened SessionOutcomes
  import opened SessionSafety
  import opened Wrappers

  class PortableSessionSupervisor {
    var snapshots: map<SessionId, Status>
    var running: map<SessionId, Generation>
    var queued: map<SessionId, QueueEntry>
    var leases: set<SessionId>
    var workers: map<Generation, Worker>
    var stopping: map<RequestId, Stopping>
    var nextWorkerGeneration: Generation
    ghost var history: seq<Event>

    ghost function View(): Machine
      reads this
    {
      Machine(snapshots, running, queued, leases, workers, stopping, nextWorkerGeneration, history)
    }

    constructor (saved: map<SessionId, Status>)
      ensures Initial(View()) && View().status == saved && View().leases == {}
    {
      snapshots, running, queued, leases := saved, map[], map[], {};
      workers, stopping, nextWorkerGeneration, history := map[], map[], 1, [];
    }

    method RecordCleanup(g: Generation, stopped: bool)
      requires g in workers
      modifies this
      ensures View() == Record(old(View()), g, stopped)
    {
      workers := workers[g := workers[g].(confirmed := stopped, retry := !stopped)];
      if stopped {
        history := history + [Confirmed(g)];
      }
    }

    method ReleaseSessionLease(sid: SessionId)
      modifies this
      ensures View() == Release(old(View()), sid)
    {
      if sid in leases {
        leases := leases - {sid};
        history := history + [Released(sid)];
      }
    }

    method FinalizePostLaunchFailure(sid: SessionId, rollback: bool)
      modifies this
      ensures View() == FinalizeLaunchFailure(old(View()), sid, rollback)
    {
      if rollback {
        ReleaseSessionLease(sid);
        snapshots := snapshots - {sid};
      } else {
        snapshots := snapshots[sid := Failed];
        ReleaseSessionLease(sid);
      }
    }

    method LaunchSession(sid: SessionId, rollback: bool, answer: LaunchAnswer)
      modifies this
      ensures View() == Launch(old(View()), sid, rollback, answer)
      // in a free slot this is safe
      ensures old(SlotFree(View(), sid) && (rollback ==> sid !in queued)) ==> SafeSection(old(View()), View())
      // a worker that started owns the slot, and one that could not be stopped again keeps slot and lease
      ensures answer.Started? ==>
        ReadsForSession(View(), sid, old(nextWorkerGeneration)) && leases == old(leases)
      ensures answer == SetupFailed(false) ==>
        OwnsInterrupted(View(), sid, old(nextWorkerGeneration)) && leases == old(leases)
      ensures Launching(old(View()), View(), sid, rollback, answer)
    {
      hide Launching;
      LaunchMeans(View(), sid, rollback, answer);
      hide Release, AbandonSetup, SlotFree, SafeSection, ReadsForSession, OwnsInterrupted;
      LaunchingIsSafe(View(), sid, rollback, answer);
      LaunchOutcome(View(), sid, rollback, answer);
      if answer.NoProcess? {
        snapshots := snapshots[sid := Failed];
        assert View() == WithStatus(old(View()), sid, Failed);
        if answer.persisted {
          ReleaseSessionLease(sid);
        }
        return;
      }
      var g := nextWorkerGeneration;
      nextWorkerGeneration := g + 1;
      workers := workers[g := Worker(sid, NoReader, None, false, false, false, false, None)];
      running := running[sid := g];
      snapshots := snapshots[sid := Running];
      history := history + [Launched(sid, g)];
      assert View() == Spawn(WithStatus(old(View()), sid, Running), sid);
      if answer.Started? {
        workers := workers[g := workers[g].(reader := Reading)];
        return;
      }
      HandlePostLaunchFailure(sid, g, rollback, answer.stopped);
    }

    method HandlePostLaunchFailure(sid: SessionId, g: Generation, rollback: bool, stopped: bool)
      requires g in workers
      modifies this
      ensures View() == AbandonSetup(old(View()), sid, g, rollback, stopped)
    {
      RecordCleanup(g, stopped);
      if stopped {
        running := running - {sid};
        FinalizePostLaunchFailure(sid, rollback);
      } else {
        workers := workers[g := workers[g].(stopRequested := true, rollback := Some(rollback))];
        snapshots := snapshots[sid := Interrupted];
      }
    }

    method Schedule(sid: SessionId, rollback: bool, granted: bool, answer: LaunchAnswer)
      modifies this
      ensures View() == ScheduleSession(old(View()), sid, rollback, granted, answer)
      ensures Scheduling(old(View()), View(), sid, rollback, granted, answer)
    {
      hide Scheduling, Launching, SafeSection, SlotFree, ReadsForSession, OwnsInterrupted;
      ScheduleMeans(View(), sid, rollback, granted, answer);
      if granted {
        LaunchSession(sid, rollback, answer);
      } else {
        snapshots := snapshots[sid := Queued];
        queued := queued[sid := QueuedLaunch(rollback)];
      }
    }

    method Start(sid: SessionId, claimed: bool, granted: bool, answer: LaunchAnswer)
      modifies this
      ensures View() == StartSession(old(View()), sid, claimed, granted, answer)
      ensures Starting(old(View()), View(), sid, claimed, granted, answer)
    {
      hide Starting, Scheduling;
      StartMeans(View(), sid, claimed, granted, answer);
      if sid !in snapshots && claimed {
        leases := leases + {sid};
        Schedule(sid, true, granted, answer);
      }
    }

    method Resume(sid: SessionId, acquire: ResumeAnswer, granted: bool, answer: LaunchAnswer)
      modifies this
      ensures View() == ResumeSession(old(View()), sid, acquire, granted, answer)
      ensures Resuming(old(View()), View(), sid, acquire, granted, answer)
    {
      hide Resuming, Scheduling;
      ResumeMeans(View(), sid, acquire, granted, answer);
      if sid in running || sid !in snapshots || acquire.Unavailable? {
        return;
      }
      leases := leases + {sid};
      if acquire.Unrecoverable? {
        ReleaseSessionLease(sid);
      } else {
        Schedule(sid, false, granted, answer);
      }
    }

    method Fail(g: Generation, stopped: bool)
      modifies this
      ensures View() == FailSession(old(View()), g, stopped)
      ensures GivingUp(old(View()), View(), g, Interrupted, Failed, stopped)
    {
      hide GivingUp;
      FailMeans(View(), g, stopped);
      if g !in workers || workers[g].session !in running || running[workers[g].session] != g {
        return;
      }
      var sid := workers[g].session;
      if sid !in snapshots || snapshots[sid].Terminal() {
        return;
      }
      snapshots := snapshots[sid := if snapshots[sid].Pausing? then Interrupted else Failed];
      RecordCleanup(g, stopped);
      if stopped {
        running := running - {sid};
      }
    }

    method Interrupt(g: Generation, stopped: bool)
      modifies this
      ensures View() == InterruptSession(old(View()), g, stopped)
      ensures GivingUp(old(View()), View(), g, Interrupted, Interrupted, stopped)
    {
      hide GivingUp;
      InterruptMeans(View(), g, stopped);
      if g !in workers || workers[g].session !in running || running[workers[g].session] != g {
        return;
      }
      var sid := workers[g].session;
      if sid !in snapshots || snapshots[sid].Terminal() {
        return;
      }
      snapshots := snapshots[sid := Interrupted];
      RecordCleanup(g, stopped);
      if stopped {
        running := running - {sid};
      }
    }

    method AskPause(sid: SessionId, request: RequestId, written: bool, stopped: bool)
      modifies this
      ensures View() == PauseSession(old(View()), sid, request, written, stopped)
      ensures SafeSection(old(View()), View())
      // only a session that waits without a worker is paused by the request itself; any other is pausing,
      // with the command it has to answer on its way to its worker
      ensures old(SlotSound(View(), sid)) ==> AskedOrIdle(old(View()), View(), sid, request)
      ensures old(SlotSound(View(), sid)) ==> AskingToPause(old(View()), View(), sid, request, written, stopped)
    {
      hide AskingToPause, GivingUp;
      if SlotSound(View(), sid) {
        PauseMeans(View(), sid, request, written, stopped);
      }
      hide SafeSection, SlotSound, AskedOrIdle;
      PausingIsSafe(View(), sid, request, written, stopped);
      if SlotSound(View(), sid) {
        PauseOutcome(View(), sid, request, written, stopped);
      }
      if sid !in snapshots || snapshots[sid].Pausing? || snapshots[sid].Paused? || snapshots[sid].Terminal() {
        return;
      }
      var waiting := sid in queued;
      if sid !in running || running[sid] !in workers {
        if waiting {
          queued := queued - {sid};
          snapshots := snapshots[sid := Paused];
          ReleaseSessionLease(sid);
        }
        return;
      }
      var g := running[sid];
      queued := queued - {sid};
      snapshots := snapshots[sid := Pausing];
      workers := workers[g := workers[g].(pending := Some(Identity(Pause, g, request)))];
      history := history + [PauseSent(g, request)];
      if !written {
        Fail(g, stopped);
      }
    }

    method CompleteStop(sid: SessionId, target: Status)
      modifies this
      ensures View() == FinishStop(old(View()), sid, target)
    {
      running := running - {sid};
      snapshots := snapshots[sid := target];
      ReleaseSessionLease(sid);
    }

    method Terminate(
      sid: SessionId, command: StopCommand, target: Status, alive: bool, request: RequestId, stopped: bool)
      requires !target.Pausing? && !target.WaitingForInput?
      modifies this
      ensures View() == TerminateSession(old(View()), sid, command, target, alive, request, stopped)
      ensures SafeSection(old(View()), View())
      // a live worker's slot and lease stay until the wait for it is over
      ensures alive && old(HasWorker(View(), sid)) && sid in old(snapshots) && !old(snapshots[sid]).Terminal() ==>
        WaitsFor(old(View()), View(), sid, target, request)
      ensures old(SlotSound(View(), sid)) ==>
        Terminating(old(View()), View(), sid, command, target, alive, request, stopped)
    {
      hide Terminating, SlotSound;
      if SlotSound(View(), sid) {
        TerminateMeans(View(), sid, command, target, alive, request, stopped);
      }
      hide StopIdle, StopWorker, SafeSection, HasWorker, WaitsFor;
      StopOutcome(View(), sid, command, target, alive, request, stopped);
      StoppingIsSafe(View(), sid, command, target, alive, request, stopped);
      if sid !in snapshots || snapshots[sid].Terminal() {
        return;
      }
      if sid !in running || running[sid] !in workers {
        TerminateIdle(sid, command, target);
        return;
      }
      queued := queued - {sid};
      assert View() == Dequeue(old(View()), sid);
      StopOwnedWorker(sid, running[sid], Identity(command, running[sid], request), target, alive, stopped);
    }

    method TerminateIdle(sid: SessionId, command: Command, target: Status)
      requires sid in snapshots
      modifies this
      ensures View() == StopIdle(old(View()), sid, command, target)
    {
      if sid in queued {
        queued := queued - {sid};
        CompleteStop(sid, target);
      } else if command.ForceStop? && snapshots[sid].Interrupted? {
        return;
      } else if snapshots[sid].Paused? || snapshots[sid].Interrupted? {
        snapshots := snapshots[sid := Cancelled];
        ReleaseSessionLease(sid);
      }
    }

    method StopOwnedWorker(
      sid: SessionId, g: Generation, identity: Identity, target: Status, alive: bool, stopped: bool)
      requires g in workers
      modifies this
      ensures View() == StopWorker(old(View()), sid, g, identity, target, alive, stopped)
    {
      if alive {
        workers := workers[g := workers[g].(stopRequested := true, pending := Some(identity))];
        stopping := stopping[identity.request := Stopping(sid, g, target)];
      } else if workers[g].confirmed {
        CompleteStop(sid, target);
      } else {
        RecordCleanup(g, stopped);
        if stopped {
          CompleteStop(sid, target);
        } else {
          snapshots := snapshots[sid := Interrupted];
        }
      }
    }

    method AwaitedStop(request: RequestId, stopped: bool)
      modifies this
      ensures View() == EndTermination(old(View()), request, stopped)
      ensures EndingStop(old(View()), View(), request, stopped)
    {
      hide EndingStop;
      EndStopMeans(View(), request, stopped);
      if request !in stopping || stopping[request].generation !in workers {
        return;
      }
      var stop := stopping[request];
      stopping := stopping - {request};
      RecordCleanup(stop.generation, stopped);
      if stop.session !in snapshots {
        if stopped {
          running := running - {stop.session};
        }
      } else if stopped {
        CompleteStop(stop.session, stop.target);
      } else {
        snapshots := snapshots[stop.session := Interrupted];
      }
    }

    method AcceptInput(sid: SessionId)
      modifies this
      ensures View() == ProvideInput(old(View()), sid)
      ensures TakingInput(old(View()), View(), sid)
    {
      hide TakingInput;
      InputMeans(View(), sid);
      if sid in snapshots && snapshots[sid].WaitingForInput? && sid in running {
        snapshots := snapshots[sid := Queued];
        queued := queued[sid := QueuedInput];
      }
    }

    method AcceptFrame(g: Generation, f: Frame, stopped: bool)
      requires Owns(View(), g) && workers[g].session in snapshots
      modifies this
      ensures View() == Accept(old(View()), g, f, stopped)
      ensures Acting(old(View()), View(), g, f, stopped)
    {
      hide Acting, GivingUp;
      AcceptMeans(View(), g, f, stopped);
      var sid := workers[g].session;
      match f {
        case Diagnostic =>
        case Progress =>
        case StatusRunning(capacityOwned) =>
          if capacityOwned {
            snapshots := snapshots[sid := Running];
          }
        case InputRequest =>
          snapshots := snapshots[sid := WaitingForInput];
        case Checkpoint(identity, evidence) =>
          if !snapshots[sid].Pausing? || !evidence {
            Fail(g, stopped);
          } else {
            workers := workers[g := workers[g].(checkpointed := true)];
            history := history + [CheckpointAccepted(g, identity, evidence)];
          }
        case CheckpointFailure(_) =>
          if !snapshots[sid].Pausing? {
            Fail(g, stopped);
          } else {
            snapshots := snapshots[sid := Interrupted];
          }
        case Termination(identity) =>
          if workers[g].pending != Some(identity) {
            Fail(g, stopped);
          }
        case Completion(exitCode, unfinished) =>
          snapshots := snapshots[sid := if exitCode != 0 then Failed else if unfinished then Ready else Completed];
          workers := workers[g := workers[g].(stopRequested := true)];
        case Failure =>
          snapshots := snapshots[sid := Failed];
          workers := workers[g := workers[g].(stopRequested := true)];
      }
    }

    method ApplyWorkerFrame(g: Generation, f: Frame, stopped: bool)
      requires Owns(View(), g) && workers[g].session in snapshots
      modifies this
      ensures View() == ApplyFrame(old(View()), g, f, stopped)
      ensures old(workers[g].rollback != Some(true)) ==> SafeSection(old(View()), View())
      // a frame reaches only its own session and never a lease
      ensures leases == old(leases) && OnlyTouches(old(View()), View(), old(workers[g].session))
      // it never completes a pause, and a checkpoint counts only as the answer to the pause that is pending
      ensures !TurnsInto(old(View()), View(), old(workers[g].session), Paused)
      ensures g in workers && (workers[g].checkpointed ==> old(workers[g].checkpointed) || Answers(old(View()), g, f))
      ensures Framing(old(View()), View(), g, f, stopped)
    {
      hide Framing, Acting;
      FrameMeans(View(), g, f, stopped);
      hide SafeSection, OnlyTouches, TurnsInto, Answers;
      FrameOutcome(View(), g, f, stopped);
      FrameIsSafe(View(), g, f, stopped);
      var pending := workers[g].pending;
      if pending.Some? {
        if Acknowledges(pending.value.action, f) {
          if f.identity != pending.value || pending.value.generation != g {
            if pending.value.action.Pause? {
              snapshots := snapshots[workers[g].session := Interrupted];
              workers := workers[g := workers[g].(stopRequested := true)];
            }
            return;
          }
        } else if !f.Diagnostic? {
          return;
        }
      }
      AcceptFrame(g, f, stopped);
    }

    method ReadWorkerFrame(g: Generation, f: Frame, stopped: bool)
      modifies this
      ensures View() == ReadFrame(old(View()), g, f, stopped)
      ensures ReadingFrame(old(View()), View(), g, f, stopped)
    {
      hide ReadingFrame, Framing;
      ReadMeans(View(), g, f, stopped);
      hide ApplyFrame;
      if g !in workers || !workers[g].reader.Reading? {
        return;
      }
      var sid, before := workers[g].session, workers[g].pending;
      if sid !in running || running[sid] != g || sid !in snapshots || snapshots[sid].Terminal() {
        workers := workers[g := workers[g].(reader := Leaving)];
        return;
      }
      ApplyWorkerFrame(g, f, stopped);
      if EndsReading(f) || (f.Termination? && before.None?) {
        FrameKeepsWorker(old(View()), g, f, stopped);
        workers := workers[g := workers[g].(reader := Leaving)];
      }
    }

    method LoseStream(g: Generation, failed: bool, stopped: bool)
      modifies this
      ensures View() == if failed then ReadError(old(View()), g, stopped) else ReadEnd(old(View()), g, stopped)
      ensures LosingStream(old(View()), View(), g, failed, stopped)
    {
      hide LosingStream, GivingUp;
      StreamMeans(View(), g, stopped);
      if g !in workers || !workers[g].reader.Reading? {
        return;
      }
      var sid := workers[g].session;
      if failed {
        Fail(g, stopped);
      } else if sid in running && running[sid] == g && sid in snapshots && !snapshots[sid].Pausing?
                && !snapshots[sid].Interrupted? && !workers[g].stopRequested {
        Interrupt(g, stopped);
      }
      workers := workers[g := workers[g].(reader := Leaving)];
    }

    method ReapReader(g: Generation, stopped: bool)
      modifies this
      ensures View() == ReapWorker(old(View()), g, stopped)
      ensures Reaping(old(View()), View(), g, stopped)
    {
      hide Reaping;
      ReapMeans(View(), g, stopped);
      if g in workers && workers[g].reader.Leaving? {
        RecordCleanup(g, stopped);
        workers := workers[g := workers[g].(reader := Reaped(stopped))];
      }
    }

    method LeaveOwnedSlot(g: Generation, stopped: bool)
      requires Owns(View(), g) && workers[g].session in snapshots
      modifies this
      ensures View() == LeaveSlot(old(View()), g, stopped)
      ensures LeavingSlot(old(View()), View(), g, stopped)
    {
      hide LeavingSlot;
      LeaveMeans(View(), g, stopped);
      var sid := workers[g].session;
      if workers[g].checkpointed {
        RecordCleanup(g, stopped);
        if stopped {
          running := running - {sid};
          snapshots := snapshots[sid := Paused];
          history := history + [PausedBy(sid, g)];
        } else {
          snapshots := snapshots[sid := Interrupted];
        }
      } else if snapshots[sid].Terminal() || snapshots[sid].Interrupted? || workers[g].stopRequested {
        if stopped {
          running := running - {sid};
        } else {
          RecordCleanup(g, false);
        }
      }
    }

    method EndReader(g: Generation)
      modifies this
      ensures View() == FinishReader(old(View()), g)
      ensures SafeSection(old(View()), View())
      // a pause completes only with the checkpoint of the worker that owned the slot, and its confirmed stop
      ensures g in old(workers) && TurnsInto(old(View()), View(), old(workers[g].session), Paused) ==>
        && old(Owns(View(), g)) && old(workers[g].checkpointed) && old(workers[g].reader) == Reaped(true)
        && old(workers[g].session) !in running && PausedBy(old(workers[g].session), g) in history
      ensures ReaderEnds(old(View()), View(), g)
      // a checkpointed owner is paused, out of its slot and without its lease, or else interrupted and keeps both
      ensures old(CheckpointedOwner(View(), g)) && old(workers[g].reader) == Reaped(true) ==>
        SeatOf(View(), old(workers[g].session))
        == Seat(Some(Paused), None, old(SeatOf(View(), workers[g].session)).queued, false)
      ensures old(CheckpointedOwner(View(), g)) && old(workers[g].reader) == Reaped(false) ==>
        SeatOf(View(), old(workers[g].session))
        == old(SeatOf(View(), workers[g].session)).(status := Some(Interrupted))
    {
      hide ReaderEnds, LeavingSlot;
      if CheckpointedOwner(View(), g) {
        CheckpointedOwnerEnds(View(), workers[g].session, g);
      }
      FinishMeans(View(), g);
      hide SafeSection, TurnsInto, LeaveSlot;
      if g in workers && workers[g].reader.Reaped? && workers[g].session in snapshots && Owns(View(), g) {
        WorkersStayFinished(View(), g);
      }
      FinishOutcome(View(), g);
      FinishingIsSafe(View(), g);
      if g !in workers || !workers[g].reader.Reaped? {
        return;
      }
      var sid, stopped := workers[g].session, workers[g].reader.stopped;
      workers := workers[g := workers[g].(reader := Gone)];
      if sid !in snapshots {
        return;
      }
      if sid in running && running[sid] == g {
        LeaveOwnedSlot(g, stopped);
      }
      if sid !in running && workers[g].confirmed
         && !snapshots[sid].Running? && !snapshots[sid].Pausing? && !snapshots[sid].Queued? {
        ReleaseSessionLease(sid);
      }
    }

    method RetryPendingWorkerCleanup(sid: SessionId, stopped: bool)
      modifies this
      ensures View() == RetryCleanup(old(View()), sid, stopped)
      ensures Retrying(old(View()), View(), sid, stopped)
    {
      hide Retrying;
      RetryMeans(View(), sid, stopped);
      if sid !in running || running[sid] !in workers || sid !in snapshots {
        return;
      }
      var g := running[sid];
      if workers[g].confirmed || !workers[g].retry || !(snapshots[sid].Terminal() || snapshots[sid].Interrupted?) {
        return;
      }
      var rollback := workers[g].rollback;
      RecordCleanup(g, stopped);
      if stopped {
        running := running - {sid};
        if rollback.Some? {
          FinalizePostLaunchFailure(sid, rollback.value);
        } else {
          ReleaseSessionLease(sid);
        }
      }
    }

    method ServeQueue(sid: SessionId, capacity: CapacityAnswer, answer: LaunchAnswer, written: bool, stopped: bool)
      modifies this
      ensures View() == RunQueued(old(View()), sid, capacity, answer, written, stopped)
      ensures Serving(old(View()), View(), sid, capacity, answer, written, stopped)
    {
      hide Serving, Launching, GivingUp;
      QueueMeans(View(), sid, capacity, answer, written, stopped);
      if sid !in queued || capacity.NotGranted? {
        return;
      }
      var entry := queued[sid];
      queued := queued - {sid};
      if capacity.RequestFailed? {
        snapshots := snapshots[sid := Failed];
      } else if entry.QueuedLaunch? {
        LaunchSession(sid, entry.rollback, answer);
      } else if sid !in running {
        snapshots := snapshots[sid := Failed];
      } else if written {
        snapshots := snapshots[sid := Running];
      } else {
        Fail(running[sid], stopped);
      }
    }

    /** One critical section, by any of the threads. */
    method Perform(s: Step)
      modifies this
      ensures View() == Next(old(View()), s)
      ensures !Overlaps(old(View()), s) ==> SafeSection(old(View()), View())
    {
      hide Launching, Scheduling, Starting, Resuming, GivingUp, AskingToPause, Terminating, EndingStop, TakingInput;
      hide Acting, Framing, ReadingFrame, LosingStream, Reaping, ReaderEnds, LeavingSlot, Retrying, Serving;
      hide SafeSection, Overlaps, SlotSound, AskedOrIdle, HasWorker, WaitsFor, TurnsInto, Owns;
      StepIsSafe(View(), s);
      match s {
        case Start(sid, claimed, granted, answer) => Start(sid, claimed, granted, answer);
        case Resume(sid, acquire, granted, answer) => Resume(sid, acquire, granted, answer);
        case AskPause(sid, request, written, stopped) => AskPause(sid, request, written, stopped);
        case Stop(sid, command, alive, request, stopped) =>
          Terminate(sid, command, StopTarget(command), alive, request, stopped);
        case StopEnds(request, stopped) => AwaitedStop(request, stopped);
        case Input(sid) => AcceptInput(sid);
        case FrameRead(g, frame, stopped) => ReadWorkerFrame(g, frame, stopped);
        case StreamFailed(g, stopped) => LoseStream(g, true, stopped);
        case StreamEnded(g, stopped) => LoseStream(g, false, stopped);
        case Reap(g, stopped) => ReapReader(g, stopped);
        case ReaderFinishes(g) => EndReader(g);
        case CleanupRetried(sid, stopped) => RetryPendingWorkerCleanup(sid, stopped);
        case QueueServed(sid, capacity, answer, written, stopped) =>
          ServeQueue(sid, capacity, answer, written, stopped);
      }
    }

    /** Any interleaving of the threads' critical sections: pauses are earned, and leases outlive the workers. */
    method Run(steps: seq<Step>)
      requires Initial(View())
      modifies this
      ensures View() == After(old(View()), steps)
      ensures SafeHistory(View().history, false)
      ensures old(Separate(View(), steps)) ==> SafeHistory(View().history, true)
    {
      hide Sound, Next, SafeHistory, Separate, Overlaps;
      for i := 0 to |steps|
        invariant View() == After(old(View()), steps[..i])
      {
        assert steps[..i + 1][..i] == steps[..i];
        Perform(steps[i]);
      }
      assert steps[..|steps|] == steps;
      InitialIsSound(old(View()), false);
      RunKeeps(old(View()), steps, false);
      HistoryIsSafe(View(), false);
      if old(Separate(View(), steps)) {
        InitialIsSound(old(View()), true);
        RunKeeps(old(View()), steps, true);
        HistoryIsSafe(View(), true);
      }
    }
  }

  predicate TurnsInto(m: Machine, n: Machine, sid: SessionId, s: Status) {
    sid in n.status && n.status[sid] == s && !(sid in m.status && m.status[sid] == s)
  }

  /** The worker owns the slot of a known session, has answered its pause, and its tree was measured. */
  predicate CheckpointedOwner(m: Machine, g: Generation) {
    && g in m.workers && Holds(m, m.workers[g].session, g) && m.workers[g].session in m.status
    && m.workers[g].checkpointed && m.workers[g].reader.Reaped?
  }

  predicate HasWorker(m: Machine, sid: SessionId) {
    sid in m.running && m.running[sid] in m.workers
  }

  predicate OwnsInterrupted(m: Machine, sid: SessionId, g: Generation) {
    sid in m.running && m.running[sid] == g && Owns(m, g) && sid in m.status && m.status[sid] == Interrupted
  }

  lemma LaunchOutcome(m: Machine, sid: SessionId, rollback: bool, answer: LaunchAnswer)
    ensures var n := Launch(m, sid, rollback, answer);
      && (answer.Started? ==> ReadsForSession(n, sid, m.nextGeneration) && n.leases == m.leases)
      && (answer == SetupFailed(false) ==> OwnsInterrupted(n, sid, m.nextGeneration) && n.leases == m.leases)
  {
  }

  /** How a request to pause leaves the session. */
  ghost predicate AskedOrIdle(m: Machine, n: Machine, sid: SessionId, request: RequestId) {
    && (TurnsInto(m, n, sid, Paused) ==> !HasWorker(m, sid) && sid in m.queued && sid !in n.queued)
    && (TurnsInto(m, n, sid, Pausing) ==>
          && HasWorker(m, sid) && n.running == m.running && n.leases == m.leases && sid !in n.queued
          && HasWorker(n, sid)
          && n.workers[n.running[sid]].pending == Some(Identity(Pause, n.running[sid], request))
          && n.history == m.history + [PauseSent(n.running[sid], request)])
  }

  lemma PauseOutcome(m: Machine, sid: SessionId, request: RequestId, written: bool, stopped: bool)
    requires SlotSound(m, sid)
    ensures AskedOrIdle(m, PauseSession(m, sid, request, written, stopped), sid, request)
  {
  }

  /** The worker was told to stop and is waited for: nothing else has changed hands yet. */
  ghost predicate WaitsFor(m: Machine, n: Machine, sid: SessionId, target: Status, request: RequestId)
    requires HasWorker(m, sid)
  {
    && n.running == m.running && n.leases == m.leases && n.status == m.status && n.history == m.history
    && n.stopping == m.stopping[request := Stopping(sid, m.running[sid], target)]
  }

  lemma StopOutcome(
    m: Machine, sid: SessionId, command: StopCommand, target: Status, alive: bool, request: RequestId, stopped: bool)
    ensures alive && HasWorker(m, sid) && sid in m.status && !m.status[sid].Terminal() ==>
      WaitsFor(m, TerminateSession(m, sid, command, target, alive, request, stopped), sid, target, request)
  {
  }

  /** The frame is a checkpoint of a pausing session's worker, with evidence, that answers what is pending. */
  predicate Answers(m: Machine, g: Generation, f: Frame)
    requires Owns(m, g) && m.workers[g].session in m.status
  {
    && f.Checkpoint? && f.evidenceMatches && m.status[m.workers[g].session].Pausing?
    && (m.workers[g].pending.Some? ==> m.workers[g].pending == Some(f.identity) && f.identity.generation == g)
  }

  lemma FailOutcome(m: Machine, g: Generation, stopped: bool)
    requires Owns(m, g) && m.workers[g].session in m.status
    ensures var n := FailSession(m, g, stopped);
      && OnlyTouches(m, n, m.workers[g].session) && !TurnsInto(m, n, m.workers[g].session, Paused)
      && g in n.workers && (n.workers[g].checkpointed ==> m.workers[g].checkpointed)
  {
  }

  lemma StatusTouches(m: Machine, n: Machine, sid: SessionId, s: Status)
    requires n.running == m.running && n.status == m.status[sid := s] && !s.Paused?
    ensures OnlyTouches(m, n, sid) && !TurnsInto(m, n, sid, Paused)
  {
  }

  lemma Untouched(m: Machine, n: Machine, sid: SessionId)
    requires n.running == m.running && n.status == m.status
    ensures OnlyTouches(m, n, sid) && !TurnsInto(m, n, sid, Paused)
  {
  }

  lemma AcceptOutcome(m: Machine, g: Generation, f: Frame, stopped: bool)
    requires Owns(m, g) && m.workers[g].session in m.status
    ensures var n := Accept(m, g, f, stopped);
      && OnlyTouches(m, n, m.workers[g].session) && !TurnsInto(m, n, m.workers[g].session, Paused)
      && g in n.workers
      && (n.workers[g].checkpointed ==>
            || m.workers[g].checkpointed
            || (f.Checkpoint? && f.evidenceMatches && m.status[m.workers[g].session].Pausing?))
  {
    hide FailSession, OnlyTouches, TurnsInto;
    var n, sid := Accept(m, g, f, stopped), m.workers[g].session;
    FailOutcome(m, g, stopped);
    match f {
      case StatusRunning(capacityOwned) =>
        if capacityOwned {
          StatusTouches(m, n, sid, Running);
        } else {
          Untouched(m, n, sid);
        }
      case InputRequest => StatusTouches(m, n, sid, WaitingForInput);
      case CheckpointFailure(_) =>
        if m.status[sid].Pausing? {
          StatusTouches(m, n, sid, Interrupted);
        }
      case Checkpoint(_, evidence) =>
        if m.status[sid].Pausing? && evidence {
          Untouched(m, n, sid);
        }
      case Completion(exitCode, unfinished) =>
        StatusTouches(m, n, sid, if exitCode != 0 then Failed else if unfinished then Ready else Completed);
      case Failure => StatusTouches(m, n, sid, Failed);
      case _ =>
        if n == m {
          Untouched(m, n, sid);
        }
    }
  }

  lemma FrameOutcome(m: Machine, g: Generation, f: Frame, stopped: bool)
    requires Owns(m, g) && m.workers[g].session in m.status
    ensures var n := ApplyFrame(m, g, f, stopped);
      && OnlyTouches(m, n, m.workers[g].session) && !TurnsInto(m, n, m.workers[g].session, Paused)
      && g in n.workers && (n.workers[g].checkpointed ==> m.workers[g].checkpointed || Answers(m, g, f))
  {
    hide Accept, OnlyTouches, TurnsInto;
    AcceptOutcome(m, g, f, stopped);
    Untouched(m, m, m.workers[g].session);
    if m.workers[g].pending.Some? && m.workers[g].pending.value.action.Pause? {
      StatusTouches(m, Mismatch(m, g), m.workers[g].session, Interrupted);
    }
  }

  lemma FinishOutcome(m: Machine, g: Generation)
    ensures var n := FinishReader(m, g);
      g in m.workers && TurnsInto(m, n, m.workers[g].session, Paused) ==>
        && Owns(m, g) && m.workers[g].checkpointed && m.workers[g].reader == Reaped(true)
        && m.workers[g].session !in n.running && PausedBy(m.workers[g].session, g) in n.history
  {
  }

  lemma StepIsSafe(m: Machine, s: Step)
    ensures !Overlaps(m, s) ==> SafeSection(m, Next(m, s))
  {
    hide Sound, GoesSafely, Overlaps, Next;
    if Sound(m, true) && !Overlaps(m, s) {
      StepKeeps(m, s, true);
      StepGoesSafely(m, s);
    }
  }

  lemma LaunchingIsSafe(m: Machine, sid: SessionId, rollback: bool, answer: LaunchAnswer)
    ensures SlotFree(m, sid) && (rollback ==> sid !in m.queued) ==> SafeSection(m, Launch(m, sid, rollback, answer))
  {
    hide Sound, GoesSafely, SlotFree, Lasting, Launch;
    if SlotFree(m, sid) && (rollback ==> sid !in m.queued) && Sound(m, true) {
      assert sid !in m.running by { SlotIsEmpty(m, sid); }
      LaunchKeeps(m, sid, rollback, answer, true);
      LaunchLasts(m, sid, rollback, answer);
      LastingGoesSafely(m, Launch(m, sid, rollback, answer));
    }
  }

  lemma SlotIsEmpty(m: Machine, sid: SessionId)
    requires SlotFree(m, sid)
    ensures sid !in m.running
  {
  }

  lemma PausingIsSafe(m: Machine, sid: SessionId, request: RequestId, written: bool, stopped: bool)
    ensures SafeSection(m, PauseSession(m, sid, request, written, stopped))
  {
    hide Sound, GoesSafely, PauseSession, Lasting;
    if Sound(m, true) {
      PauseKeeps(m, sid, request, written, stopped, true);
      PauseLasts(m, sid, request, written, stopped);
      LastingGoesSafely(m, PauseSession(m, sid, request, written, stopped));
    }
  }

  lemma StoppingIsSafe(
    m: Machine, sid: SessionId, command: StopCommand, target: Status, alive: bool, request: RequestId, stopped: bool)
    requires !target.Pausing? && !target.WaitingForInput?
    ensures SafeSection(m, TerminateSession(m, sid, command, target, alive, request, stopped))
  {
    hide Sound, GoesSafely, TerminateSession, Lasting;
    if Sound(m, true) {
      TerminateKeeps(m, sid, command, target, alive, request, stopped, true);
      TerminateLasts(m, sid, command, target, alive, request, stopped);
      LastingGoesSafely(m, TerminateSession(m, sid, command, target, alive, request, stopped));
    }
  }

  lemma FrameIsSafe(m: Machine, g: Generation, f: Frame, stopped: bool)
    requires Owns(m, g) && m.workers[g].session in m.status
    ensures m.workers[g].rollback != Some(true) ==> SafeSection(m, ApplyFrame(m, g, f, stopped))
    ensures ApplyFrame(m, g, f, stopped).leases == m.leases
  {
    hide Sound, GoesSafely, ApplyFrame, Lasting;
    FrameLasts(m, g, f, stopped);
    if Sound(m, true) && m.workers[g].rollback != Some(true) {
      ApplyKeeps(m, g, f, stopped, true);
      LastingGoesSafely(m, ApplyFrame(m, g, f, stopped));
    }
  }

  lemma FinishingIsSafe(m: Machine, g: Generation)
    ensures SafeSection(m, FinishReader(m, g))
  {
    hide Sound, GoesSafely, FinishReader, Lasting;
    if Sound(m, true) {
      FinishKeeps(m, g, true);
      FinishLasts(m, g);
      LastingGoesSafely(m, FinishReader(m, g));
    }
  }

  lemma WorkersStayFinished(m: Machine, g: Generation)
    requires g in m.workers && m.workers[g].reader.Reaped? && m.workers[g].session in m.status && Owns(m, g)
    ensures var left := WithWorker(m, g, m.workers[g].(reader := Gone));
      var n := LeaveSlot(left, g, m.workers[g].reader.stopped);
      g in n.workers && m.workers[g].session in n.status
  {
  }
}
