/**
 What holds of the sessions in every run: no lease is released before every worker of the session
 is confirmed stopped, and a session is paused by a worker only after that worker's own, matching
 checkpoint (src/devloop/portable_sessions.py:1446-1554, 1978-2022, 2250-2329, 2467-2515, 3402-3422).
 */
module SessionSafety {
  import opened SessionMachine
  import opened Wrappers

  // ---------------------------------------------------------------------------------------------
  // Properties of what happened

  /** Every worker the session ever had is confirmed stopped. */
  ghost predicate AllConfirmed(h: seq<Event>, sid: SessionId) {
    forall g: Generation :: Launched(sid, g) in h ==> Confirmed(g) in h
  }

  /** The worker answered a pause sent to it, with the same identity and matching evidence. */
  ghost predicate PauseAnswered(h: seq<Event>, g: Generation) {
    exists j, k, id ::
      && 0 <= j < k < |h| && h[j] == PauseSent(g, id)
      && h[k] == CheckpointAccepted(g, Identity(Pause, g, id), true)
  }

  /** A release is held to account only when `strict`, a pause always. */
  ghost predicate EventSafe(h: seq<Event>, e: Event, strict: bool) {
    match e
    case Released(sid) => strict ==> AllConfirmed(h, sid)
    case PausedBy(sid, g) => Launched(sid, g) in h && Confirmed(g) in h && PauseAnswered(h, g)
    case _ => true
  }

  ghost predicate SafeHistory(h: seq<Event>, strict: bool) {
    forall i | 0 <= i < |h| :: EventSafe(h[..i], h[i], strict)
  }

  lemma ExtendHistory(h: seq<Event>, e: Event, strict: bool)
    requires SafeHistory(h, strict) && EventSafe(h, e, strict)
    ensures SafeHistory(h + [e], strict)
  {
    var n := h + [e];
    forall i | 0 <= i < |n| ensures EventSafe(n[..i], n[i], strict) {
      if i < |h| {
        assert n[..i] == h[..i];
      } else {
        assert n[..i] == h;
      }
    }
  }

  lemma AnswerIsLasting(h: seq<Event>, e: Event, g: Generation)
    requires PauseAnswered(h, g)
    ensures PauseAnswered(h + [e], g)
  {
    var j, k, id :|
      && 0 <= j < k < |h| && h[j] == PauseSent(g, id)
      && h[k] == CheckpointAccepted(g, Identity(Pause, g, id), true);
    var n := h + [e];
    assert n[j] == PauseSent(g, id) && n[k] == CheckpointAccepted(g, Identity(Pause, g, id), true);
  }

  // ---------------------------------------------------------------------------------------------
  // The invariant

  /** Commands and checkpoints are justified, and, if `strict`, a worker outside its slot is confirmed stopped. */
  ghost predicate WorkerSound(m: Machine, g: Generation, strict: bool)
    requires g in m.workers
  {
    var w := m.workers[g];
    && g < m.nextGeneration && Launched(w.session, g) in m.history
    && (strict ==> Confirmed(g) in m.history || Owns(m, g))
    && (w.confirmed || w.reader == Reaped(true) ==> Confirmed(g) in m.history)
    && (w.pending.Some? ==> w.pending.value.generation == g)
    && (w.pending.Some? && w.pending.value.action.Pause? ==> PauseSent(g, w.pending.value.request) in m.history)
    && (w.checkpointed ==> PauseAnswered(m.history, g))
    && (w.rollback == Some(true) ==> w.reader.NoReader?)
  }

  ghost predicate SlotSound(m: Machine, sid: SessionId) {
    sid in m.running ==>
      && m.running[sid] in m.workers && m.workers[m.running[sid]].session == sid
      && (sid in m.status && m.status[sid].Pausing? ==> m.workers[m.running[sid]].pending.Some?)
  }

  ghost predicate SessionSound(m: Machine, sid: SessionId, strict: bool) {
    && SlotSound(m, sid)
    && (strict ==>
          && (sid in m.running || sid in m.queued ==> sid in m.status)
          && (sid in m.running && m.workers[m.running[sid]].rollback == Some(true) ==>
                sid !in m.queued && !m.status[sid].WaitingForInput?)
          && (sid in m.queued && m.queued[sid].QueuedLaunch? ==> sid !in m.running))
  }

  /** A stop waits for its own session's worker; if `strict`, no other worker takes the slot meanwhile. */
  ghost predicate StopSound(m: Machine, request: RequestId, strict: bool)
    requires request in m.stopping
  {
    var stop := m.stopping[request];
    && stop.generation in m.workers && m.workers[stop.generation].session == stop.session
    && !stop.target.Pausing?
    && (strict ==>
          && (stop.session in m.running ==> m.running[stop.session] == stop.generation)
          && (stop.session in m.queued ==> !m.queued[stop.session].QueuedLaunch?))
  }

  predicate BeingStopped(m: Machine, sid: SessionId) {
    exists request :: request in m.stopping && m.stopping[request].session == sid
  }

  ghost predicate EventRegistered(m: Machine, e: Event) {
    && (e.Launched? ==> e.generation in m.workers && m.workers[e.generation].session == e.session)
    && (e.Confirmed? ==> e.generation in m.workers)
  }

  ghost predicate LaunchesRegistered(m: Machine) {
    forall e | e in m.history :: EventRegistered(m, e)
  }

  ghost predicate Sound(m: Machine, strict: bool) {
    && (forall g | g in m.workers :: WorkerSound(m, g, strict))
    && (forall sid: SessionId :: SessionSound(m, sid, strict))
    && (forall request | request in m.stopping :: StopSound(m, request, strict))
    && LaunchesRegistered(m) && SafeHistory(m.history, strict)
  }

  // ---------------------------------------------------------------------------------------------
  // Small updates keep it

  lemma StatusKeeps(m: Machine, sid: SessionId, s: Status, strict: bool)
    requires Sound(m, strict)
    requires s.Pausing? && sid in m.running ==>
               m.running[sid] in m.workers && m.workers[m.running[sid]].pending.Some?
    requires strict && s.WaitingForInput? && sid in m.running ==>
               m.running[sid] in m.workers && m.workers[m.running[sid]].rollback != Some(true)
    ensures Sound(WithStatus(m, sid, s), strict)
  {
    hide PauseAnswered, SafeHistory;
    var n := WithStatus(m, sid, s);
    forall g | g in n.workers ensures WorkerSound(n, g, strict) { assert WorkerSound(m, g, strict); }
    forall other: SessionId ensures SessionSound(n, other, strict) { assert SessionSound(m, other, strict); }
    forall request | request in n.stopping ensures StopSound(n, request, strict) {
      assert request in m.stopping ==> StopSound(m, request, strict);
    }
  }

  /** A worker changes without losing its commands: only what must be justified is asked for. */
  lemma WorkerKeeps(m: Machine, g: Generation, w: Worker, strict: bool)
    requires Sound(m, strict) && g in m.workers && w.session == m.workers[g].session
    requires w.confirmed || w.reader == Reaped(true) ==> Confirmed(g) in m.history
    requires w.pending == m.workers[g].pending || (w.pending.Some? && w.pending.value.generation == g)
    requires w.pending.Some? && w.pending.value.action.Pause? ==> PauseSent(g, w.pending.value.request) in m.history
    requires w.checkpointed ==> PauseAnswered(m.history, g)
    requires w.rollback == Some(true) ==>
               && w.reader.NoReader?
               && (!strict || w.rollback == m.workers[g].rollback
                   || (w.session in m.status && w.session !in m.queued && !m.status[w.session].WaitingForInput?))
    ensures Sound(WithWorker(m, g, w), strict)
  {
    hide PauseAnswered, SafeHistory;
    var n := WithWorker(m, g, w);
    forall k | k in n.workers ensures WorkerSound(n, k, strict) { assert WorkerSound(m, k, strict); }
    forall sid: SessionId ensures SessionSound(n, sid, strict) { assert SessionSound(m, sid, strict); }
    forall request | request in n.stopping ensures StopSound(n, request, strict) {
      assert request in m.stopping ==> StopSound(m, request, strict);
    }
  }

  /** The facts about one worker that `WorkerKeeps` asks for again. */
  lemma WorkerFacts(m: Machine, g: Generation, strict: bool)
    requires Sound(m, strict) && g in m.workers
    ensures WorkerSound(m, g, strict)
  {
  }

  lemma LogKeeps(m: Machine, e: Event, strict: bool)
    requires Sound(m, strict) && EventSafe(m.history, e, strict)
    requires EventRegistered(m, e)
    ensures Sound(Log(m, e), strict)
  {
    hide PauseAnswered, EventSafe, SafeHistory;
    var n := Log(m, e);
    ExtendHistory(m.history, e, strict);
    forall g | g in n.workers ensures WorkerSound(n, g, strict) {
      assert WorkerSound(m, g, strict);
      if m.workers[g].checkpointed {
        AnswerIsLasting(m.history, e, g);
      }
    }
    forall sid: SessionId ensures SessionSound(n, sid, strict) { assert SessionSound(m, sid, strict); }
    forall request | request in n.stopping ensures StopSound(n, request, strict) {
      assert request in m.stopping ==> StopSound(m, request, strict);
    }
  }

  lemma RecordKeeps(m: Machine, g: Generation, stopped: bool, strict: bool)
    requires Sound(m, strict) && g in m.workers
    ensures Sound(Record(m, g, stopped), strict) && (stopped ==> Confirmed(g) in Record(m, g, stopped).history)
    ensures forall e | e in m.history :: e in Record(m, g, stopped).history
  {
    hide PauseAnswered, SafeHistory, Sound;
    WorkerFacts(m, g, strict);
    var w := m.workers[g];
    if stopped {
      LogKeeps(m, Confirmed(g), strict);
      var n := Log(m, Confirmed(g));
      WorkerFacts(n, g, strict);
      WorkerKeeps(n, g, w.(confirmed := true, retry := false), strict);
      assert WithWorker(n, g, w.(confirmed := true, retry := false)) == Record(m, g, true);
    } else {
      WorkerKeeps(m, g, w.(confirmed := false, retry := true), strict);
    }
  }

  lemma DropKeeps(m: Machine, sid: SessionId, strict: bool)
    requires Sound(m, strict) && (strict && sid in m.running ==> Confirmed(m.running[sid]) in m.history)
    ensures Sound(Drop(m, sid), strict)
  {
    hide PauseAnswered, SafeHistory;
    var n := Drop(m, sid);
    assert SessionSound(m, sid, strict);
    forall g | g in n.workers ensures WorkerSound(n, g, strict) { assert WorkerSound(m, g, strict); }
    forall other: SessionId ensures SessionSound(n, other, strict) { assert SessionSound(m, other, strict); }
    forall request | request in n.stopping ensures StopSound(n, request, strict) {
      assert request in m.stopping ==> StopSound(m, request, strict);
    }
  }

  lemma QueueKeeps(m: Machine, queued: map<SessionId, QueueEntry>, strict: bool)
    requires Sound(m, strict)
    requires strict ==> forall sid | sid in queued :: QueueSound(m, queued, sid)
    ensures Sound(m.(queued := queued), strict)
  {
    hide PauseAnswered, SafeHistory;
    var n := m.(queued := queued);
    forall g | g in n.workers ensures WorkerSound(n, g, strict) { assert WorkerSound(m, g, strict); }
    forall sid: SessionId ensures SessionSound(n, sid, strict) { assert SessionSound(m, sid, strict); }
    forall request | request in n.stopping ensures StopSound(n, request, strict) {
      assert StopSound(m, request, strict);
      assert strict && m.stopping[request].session in queued ==> QueueSound(m, queued, m.stopping[request].session);
    }
  }

  /** A queue entry is an old one, or a known session's whose worker is not to be rolled back. */
  ghost predicate QueueSound(m: Machine, queued: map<SessionId, QueueEntry>, sid: SessionId)
    requires sid in queued
  {
    || (sid in m.queued && queued[sid] == m.queued[sid])
    || (&& sid in m.status
        && (queued[sid].QueuedLaunch? ==> sid !in m.running && !BeingStopped(m, sid))
        && (sid in m.running ==> m.running[sid] in m.workers && m.workers[m.running[sid]].rollback != Some(true)))
  }

  lemma DequeueKeeps(m: Machine, sid: SessionId, strict: bool)
    requires Sound(m, strict)
    ensures Sound(Dequeue(m, sid), strict)
  {
    hide PauseAnswered, SafeHistory, WorkerSound;
    QueueKeeps(m, m.queued - {sid}, strict);
  }

  lemma LeasesKeep(m: Machine, leases: set<SessionId>, strict: bool)
    requires Sound(m, strict)
    ensures Sound(m.(leases := leases), strict)
  {
    hide PauseAnswered, SafeHistory;
    var n := m.(leases := leases);
    forall g | g in n.workers ensures WorkerSound(n, g, strict) { assert WorkerSound(m, g, strict); }
    forall sid: SessionId ensures SessionSound(n, sid, strict) { assert SessionSound(m, sid, strict); }
    forall request | request in n.stopping ensures StopSound(n, request, strict) {
      assert request in m.stopping ==> StopSound(m, request, strict);
    }
  }

  /** Releasing is safe once the session's slot is empty. */
  lemma ReleaseKeeps(m: Machine, sid: SessionId, strict: bool)
    requires Sound(m, strict) && (strict ==> sid !in m.running)
    ensures Sound(Release(m, sid), strict)
  {
    hide PauseAnswered, SafeHistory;
    if sid in m.leases {
      var n := m.(leases := m.leases - {sid});
      LeasesKeep(m, m.leases - {sid}, strict);
      forall g: Generation | strict && Launched(sid, g) in n.history ensures Confirmed(g) in n.history {
        assert EventRegistered(m, Launched(sid, g)) && WorkerSound(m, g, strict);
      }
      LogKeeps(n, Released(sid), strict);
    }
  }

  lemma StoppingKeeps(m: Machine, stopping: map<RequestId, Stopping>, strict: bool)
    requires Sound(m, strict)
    requires forall r | r in stopping :: (r in m.stopping && stopping[r] == m.stopping[r]) || StopsOwned(m, stopping[r], strict)
    ensures Sound(m.(stopping := stopping), strict)
  {
    hide PauseAnswered, SafeHistory;
    var n := m.(stopping := stopping);
    forall g | g in n.workers ensures WorkerSound(n, g, strict) { assert WorkerSound(m, g, strict); }
    forall sid: SessionId ensures SessionSound(n, sid, strict) { assert SessionSound(m, sid, strict); }
    forall request | request in n.stopping ensures StopSound(n, request, strict) {
      assert SessionSound(m, n.stopping[request].session, strict);
      assert request in m.stopping ==> StopSound(m, request, strict);
    }
  }

  /** A stop of the worker in the session's slot. */
  ghost predicate StopsOwned(m: Machine, stop: Stopping, strict: bool) {
    && !stop.target.Pausing? && stop.generation in m.workers && m.workers[stop.generation].session == stop.session
    && stop.session in m.running && m.running[stop.session] == stop.generation
  }

  /** The slot may be filled: empty, not being stopped, and no other launch is waiting for it. */
  predicate SlotFree(m: Machine, sid: SessionId) {
    sid !in m.running && !BeingStopped(m, sid) && !(sid in m.queued && m.queued[sid].QueuedLaunch?)
  }

  /** A worker starts, if `strict` in a free slot. */
  lemma SpawnKeeps(m: Machine, sid: SessionId, strict: bool)
    requires Sound(m, strict) && (strict ==> SlotFree(m, sid))
    requires sid in m.status && !m.status[sid].Pausing?
    ensures Sound(Spawn(m, sid), strict) && m.nextGeneration !in m.workers
  {
    hide PauseAnswered, SafeHistory, EventSafe, WorkerSound, SessionSound, StopSound;
    var g, n := m.nextGeneration, Spawn(m, sid);
    GenerationIsNew(m, strict);
    LaunchIsSafe(m.history, sid, g, strict);
    ExtendHistory(m.history, Launched(sid, g), strict);
    forall k | k in n.workers ensures WorkerSound(n, k, strict) {
      SpawnedWorker(m, sid, k, strict);
    }
    forall other: SessionId ensures SessionSound(n, other, strict) {
      SpawnedSession(m, sid, other, strict);
    }
    forall request | request in n.stopping ensures StopSound(n, request, strict) {
      SpawnedStop(m, sid, request, strict);
    }
  }

  lemma GenerationIsNew(m: Machine, strict: bool)
    requires Sound(m, strict)
    ensures m.nextGeneration !in m.workers
  {
    forall k | k in m.workers ensures k < m.nextGeneration {
      assert WorkerSound(m, k, strict);
    }
  }

  lemma LaunchIsSafe(h: seq<Event>, sid: SessionId, g: Generation, strict: bool)
    ensures EventSafe(h, Launched(sid, g), strict)
  {
  }

  lemma SpawnedWorker(m: Machine, sid: SessionId, k: Generation, strict: bool)
    requires Sound(m, strict) && (strict ==> sid !in m.running) && k in Spawn(m, sid).workers
    ensures WorkerSound(Spawn(m, sid), k, strict)
  {
    hide PauseAnswered, SafeHistory, SessionSound;
    if k != m.nextGeneration {
      assert WorkerSound(m, k, strict);
      if m.workers[k].checkpointed {
        AnswerIsLasting(m.history, Launched(sid, m.nextGeneration), k);
      }
    }
  }

  lemma SpawnedSession(m: Machine, sid: SessionId, other: SessionId, strict: bool)
    requires Sound(m, strict) && m.nextGeneration !in m.workers
    requires sid in m.status && !m.status[sid].Pausing? && (strict ==> SlotFree(m, sid))
    ensures SessionSound(Spawn(m, sid), other, strict)
  {
    hide PauseAnswered, SafeHistory, WorkerSound, StopSound;
    assert SessionSound(m, other, strict);
  }

  lemma SpawnedStop(m: Machine, sid: SessionId, request: RequestId, strict: bool)
    requires Sound(m, strict) && m.nextGeneration !in m.workers && request in m.stopping
    requires strict ==> SlotFree(m, sid)
    ensures StopSound(Spawn(m, sid), request, strict)
  {
    hide PauseAnswered, SafeHistory, WorkerSound, SessionSound;
    assert StopSound(m, request, strict);
  }

  // ---------------------------------------------------------------------------------------------
  // Every critical section keeps it

  lemma FinalizeKeeps(m: Machine, sid: SessionId, rollback: bool, strict: bool)
    requires Sound(m, strict) && (strict ==> sid !in m.running && (rollback ==> sid !in m.queued))
    ensures Sound(FinalizeLaunchFailure(m, sid, rollback), strict)
  {
    hide Sound;
    if rollback {
      ReleaseKeeps(m, sid, strict);
      ForgetKeeps(Release(m, sid), sid, strict);
    } else {
      StatusKeeps(m, sid, Failed, strict);
      ReleaseKeeps(WithStatus(m, sid, Failed), sid, strict);
    }
  }

  lemma ForgetKeeps(m: Machine, sid: SessionId, strict: bool)
    requires Sound(m, strict) && (strict ==> sid !in m.running && sid !in m.queued)
    ensures Sound(m.(status := m.status - {sid}), strict)
  {
    hide PauseAnswered, SafeHistory;
    var n := m.(status := m.status - {sid});
    forall g | g in n.workers ensures WorkerSound(n, g, strict) { assert WorkerSound(m, g, strict); }
    forall other: SessionId ensures SessionSound(n, other, strict) { assert SessionSound(m, other, strict); }
    forall request | request in n.stopping ensures StopSound(n, request, strict) {
      assert request in m.stopping ==> StopSound(m, request, strict);
    }
  }

  lemma LaunchKeeps(m: Machine, sid: SessionId, rollback: bool, answer: LaunchAnswer, strict: bool)
    requires Sound(m, strict) && (strict ==> SlotFree(m, sid) && (rollback ==> sid !in m.queued))
    ensures Sound(Launch(m, sid, rollback, answer), strict)
  {
    hide Sound;
    var g := m.nextGeneration;
    match answer {
      case NoProcess(persisted) =>
        StatusKeeps(m, sid, Failed, strict);
        ReleaseKeeps(WithStatus(m, sid, Failed), sid, strict);
      case SetupFailed(stopped) =>
        StatusKeeps(m, sid, Running, strict);
        SpawnKeeps(WithStatus(m, sid, Running), sid, strict);
        AbandonKeeps(Spawn(WithStatus(m, sid, Running), sid), sid, g, rollback, stopped, strict);
      case Started =>
        StatusKeeps(m, sid, Running, strict);
        SpawnKeeps(WithStatus(m, sid, Running), sid, strict);
        var n := Spawn(WithStatus(m, sid, Running), sid);
        WorkerFacts(n, g, strict);
        WorkerKeeps(n, g, n.workers[g].(reader := Reading), strict);
    }
  }

  lemma AbandonKeeps(m: Machine, sid: SessionId, g: Generation, rollback: bool, stopped: bool, strict: bool)
    requires Sound(m, strict) && Owns(m, g) && m.workers[g].session == sid && m.workers[g].reader.NoReader?
    requires sid in m.status && m.status[sid].Running? && (strict && rollback ==> sid !in m.queued)
    ensures Sound(AbandonSetup(m, sid, g, rollback, stopped), strict)
  {
    hide Sound;
    RecordKeeps(m, g, stopped, strict);
    var n := Record(m, g, stopped);
    if stopped {
      DropKeeps(n, sid, strict);
      FinalizeKeeps(Drop(n, sid), sid, rollback, strict);
    } else {
      var w := n.workers[g].(stopRequested := true, rollback := Some(rollback));
      WorkerFacts(n, g, strict);
      WorkerKeeps(n, g, w, strict);
      StatusKeeps(WithWorker(n, g, w), sid, Interrupted, strict);
    }
  }

  lemma ScheduleKeeps(m: Machine, sid: SessionId, rollback: bool, granted: bool, answer: LaunchAnswer, strict: bool)
    requires Sound(m, strict)
    requires strict ==>
      && sid !in m.running && !BeingStopped(m, sid) && (granted ==> SlotFree(m, sid))
      && if rollback then sid !in m.queued else sid in m.status
    ensures Sound(ScheduleSession(m, sid, rollback, granted, answer), strict)
  {
    hide Sound, WorkerSound;
    if granted {
      LaunchKeeps(m, sid, rollback, answer, strict);
    } else {
      StatusKeeps(m, sid, Queued, strict);
      QueueKeeps(WithStatus(m, sid, Queued), m.queued[sid := QueuedLaunch(rollback)], strict);
    }
  }

  lemma SessionFacts(m: Machine, sid: SessionId, strict: bool)
    requires Sound(m, strict)
    ensures SessionSound(m, sid, strict)
  {
  }

  lemma FailKeeps(m: Machine, g: Generation, stopped: bool, strict: bool)
    requires Sound(m, strict)
    ensures Sound(FailSession(m, g, stopped), strict)
    ensures g in m.workers ==>
      g in FailSession(m, g, stopped).workers
      && FailSession(m, g, stopped).workers[g].(confirmed := m.workers[g].confirmed, retry := m.workers[g].retry) == m.workers[g]
  {
    hide Sound;
    if Owns(m, g) && m.workers[g].session in m.status && !m.status[m.workers[g].session].Terminal() {
      var sid := m.workers[g].session;
      var s := if m.status[sid].Pausing? then Interrupted else Failed;
      StatusKeeps(m, sid, s, strict);
      RecordKeeps(WithStatus(m, sid, s), g, stopped, strict);
      DropIfStopped(Record(WithStatus(m, sid, s), g, stopped), sid, g, stopped, strict);
    }
  }

  lemma DropIfStopped(m: Machine, sid: SessionId, g: Generation, stopped: bool, strict: bool)
    requires Sound(m, strict) && sid in m.running && m.running[sid] == g && (stopped ==> Confirmed(g) in m.history)
    ensures stopped ==> Sound(Drop(m, sid), strict)
  {
    if stopped {
      DropKeeps(m, sid, strict);
    }
  }

  lemma InterruptKeeps(m: Machine, g: Generation, stopped: bool, strict: bool)
    requires Sound(m, strict)
    ensures Sound(InterruptSession(m, g, stopped), strict)
    ensures g in m.workers ==>
      && g in InterruptSession(m, g, stopped).workers
      && InterruptSession(m, g, stopped).workers[g].rollback == m.workers[g].rollback
  {
    hide Sound;
    if Owns(m, g) && m.workers[g].session in m.status && !m.status[m.workers[g].session].Terminal() {
      var sid := m.workers[g].session;
      StatusKeeps(m, sid, Interrupted, strict);
      RecordKeeps(WithStatus(m, sid, Interrupted), g, stopped, strict);
      DropIfStopped(Record(WithStatus(m, sid, Interrupted), g, stopped), sid, g, stopped, strict);
    }
  }

  lemma PauseKeeps(m: Machine, sid: SessionId, request: RequestId, written: bool, stopped: bool, strict: bool)
    requires Sound(m, strict)
    ensures Sound(PauseSession(m, sid, request, written, stopped), strict)
  {
    hide Sound;
    if sid !in m.status || m.status[sid].Pausing? || m.status[sid].Paused? || m.status[sid].Terminal() {
    } else if sid !in m.running || m.running[sid] !in m.workers {
      SessionFacts(m, sid, strict);
      if sid in m.queued {
        DequeueKeeps(m, sid, strict);
        StatusKeeps(Dequeue(m, sid), sid, Paused, strict);
        ReleaseKeeps(WithStatus(Dequeue(m, sid), sid, Paused), sid, strict);
      }
    } else {
      AskToPause(m, sid, request, strict);
      var g := m.running[sid];
      var asked := WithWorker(m, g, m.workers[g].(pending := Some(Identity(Pause, g, request))));
      FailKeeps(Log(WithStatus(Dequeue(asked, sid), sid, Pausing), PauseSent(g, request)), g, stopped, strict);
    }
  }

  lemma AskToPause(m: Machine, sid: SessionId, request: RequestId, strict: bool)
    requires Sound(m, strict) && sid in m.running && m.running[sid] in m.workers
    ensures var g := m.running[sid];
            var asked := WithWorker(m, g, m.workers[g].(pending := Some(Identity(Pause, g, request))));
            Sound(Log(WithStatus(Dequeue(asked, sid), sid, Pausing), PauseSent(g, request)), strict)
  {
    hide Sound;
    var g := m.running[sid];
    var w := m.workers[g].(pending := Some(Identity(Pause, g, request)));
    LogKeeps(m, PauseSent(g, request), strict);
    var logged := Log(m, PauseSent(g, request));
    WorkerFacts(logged, g, strict);
    WorkerKeeps(logged, g, w, strict);
    DequeueKeeps(WithWorker(logged, g, w), sid, strict);
    StatusKeeps(Dequeue(WithWorker(logged, g, w), sid), sid, Pausing, strict);
    assert WithStatus(Dequeue(WithWorker(logged, g, w), sid), sid, Pausing)
        == Log(WithStatus(Dequeue(WithWorker(m, g, w), sid), sid, Pausing), PauseSent(g, request));
  }

  lemma FinishStopKeeps(m: Machine, sid: SessionId, target: Status, strict: bool)
    requires Sound(m, strict) && !target.Pausing?
    requires strict && sid in m.running ==> Confirmed(m.running[sid]) in m.history
    ensures Sound(FinishStop(m, sid, target), strict)
  {
    hide Sound;
    DropKeeps(m, sid, strict);
    StatusKeeps(Drop(m, sid), sid, target, strict);
    ReleaseKeeps(WithStatus(Drop(m, sid), sid, target), sid, strict);
  }

  lemma TerminateKeeps(
    m: Machine, sid: SessionId, command: StopCommand, target: Status, alive: bool, request: RequestId, stopped: bool,
    strict: bool)
    requires Sound(m, strict) && !target.Pausing? && !target.WaitingForInput?
    ensures Sound(TerminateSession(m, sid, command, target, alive, request, stopped), strict)
  {
    hide Sound;
    SessionFacts(m, sid, strict);
    var n := Dequeue(m, sid);
    DequeueKeeps(m, sid, strict);
    if sid !in m.status || m.status[sid].Terminal() {
    } else if sid !in m.running || m.running[sid] !in m.workers {
      FinishStopKeeps(n, sid, target, strict);
      StatusKeeps(m, sid, Cancelled, strict);
      ReleaseKeeps(WithStatus(m, sid, Cancelled), sid, strict);
    } else {
      var g := m.running[sid];
      StopWorkerKeeps(n, sid, g, Identity(command, g, request), target, alive, stopped, strict);
    }
  }

  lemma StopWorkerKeeps(
    m: Machine, sid: SessionId, g: Generation, identity: Identity, target: Status, alive: bool, stopped: bool, strict: bool)
    requires Sound(m, strict) && sid in m.running && m.running[sid] == g && Owns(m, g) && m.workers[g].session == sid
    requires sid in m.status && !target.Pausing? && !target.WaitingForInput?
    requires identity.generation == g && !identity.action.Pause?
    ensures Sound(StopWorker(m, sid, g, identity, target, alive, stopped), strict)
  {
    hide Sound;
    WorkerFacts(m, g, strict);
    if alive {
      var w := m.workers[g].(stopRequested := true, pending := Some(identity));
      WorkerKeeps(m, g, w, strict);
      StoppingKeeps(WithWorker(m, g, w), m.stopping[identity.request := Stopping(sid, g, target)], strict);
    } else if m.workers[g].confirmed {
      FinishStopKeeps(m, sid, target, strict);
    } else {
      RecordKeeps(m, g, stopped, strict);
      if stopped {
        FinishStopKeeps(Record(m, g, true), sid, target, strict);
      } else {
        StatusKeeps(Record(m, g, false), sid, Interrupted, strict);
      }
    }
  }

  lemma EndTerminationKeeps(m: Machine, request: RequestId, stopped: bool, strict: bool)
    requires Sound(m, strict)
    ensures Sound(EndTermination(m, request, stopped), strict)
  {
    hide Sound;
    if request in m.stopping && m.stopping[request].generation in m.workers {
      StopFacts(m, request, strict);
      var sid, g, target := m.stopping[request].session, m.stopping[request].generation, m.stopping[request].target;
      StoppingKeeps(m, m.stopping - {request}, strict);
      var before := m.(stopping := m.stopping - {request});
      RecordKeeps(before, g, stopped, strict);
      if sid !in m.status {
        if stopped {
          DropKeeps(Record(before, g, true), sid, strict);
        }
      } else if stopped {
        FinishStopKeeps(Record(before, g, true), sid, target, strict);
      } else {
        StatusKeeps(Record(before, g, false), sid, Interrupted, strict);
      }
    }
  }

  lemma StopFacts(m: Machine, request: RequestId, strict: bool)
    requires Sound(m, strict) && request in m.stopping
    ensures StopSound(m, request, strict)
  {
  }

  lemma InputKeeps(m: Machine, sid: SessionId, strict: bool)
    requires Sound(m, strict)
    ensures Sound(ProvideInput(m, sid), strict)
  {
    hide Sound, WorkerSound;
    if sid in m.status && m.status[sid].WaitingForInput? && sid in m.running {
      SessionFacts(m, sid, strict);
      StatusKeeps(m, sid, Queued, strict);
      QueueKeeps(WithStatus(m, sid, Queued), m.queued[sid := QueuedInput], strict);
    }
  }

  lemma LeaveKeeps(m: Machine, g: Generation, strict: bool)
    requires Sound(m, strict) && g in m.workers && m.workers[g].rollback != Some(true)
    ensures Sound(LeaveReading(m, g), strict)
  {
    hide Sound;
    WorkerFacts(m, g, strict);
    WorkerKeeps(m, g, m.workers[g].(reader := Leaving), strict);
  }

  /** A checkpoint is accepted only as the answer to the pause that is pending. */
  lemma CheckpointKeeps(m: Machine, g: Generation, identity: Identity, strict: bool)
    requires Sound(m, strict) && Owns(m, g) && m.workers[g].pending == Some(identity) && identity.action.Pause?
    ensures var w := m.workers[g].(checkpointed := true);
            Sound(Log(WithWorker(m, g, w), CheckpointAccepted(g, identity, true)), strict)
  {
    hide Sound;
    WorkerFacts(m, g, strict);
    var e := CheckpointAccepted(g, identity, true);
    LogKeeps(m, e, strict);
    var h := Log(m, e).history;
    var j :| 0 <= j < |m.history| && m.history[j] == PauseSent(g, identity.request);
    assert h[j] == PauseSent(g, identity.request) && h[|m.history|] == e;
    assert PauseAnswered(h, g);
    WorkerFacts(Log(m, e), g, strict);
    var w := m.workers[g].(checkpointed := true);
    WorkerKeeps(Log(m, e), g, w, strict);
    assert WithWorker(Log(m, e), g, w) == Log(WithWorker(m, g, w), e);
  }

  lemma StopRequestKeeps(m: Machine, g: Generation, s: Status, strict: bool)
    requires Sound(m, strict) && Owns(m, g) && !s.Pausing? && !s.WaitingForInput?
    ensures var w := m.workers[g].(stopRequested := true);
            && Sound(WithWorker(WithStatus(m, m.workers[g].session, s), g, w), strict)
            && Sound(WithStatus(WithWorker(m, g, w), m.workers[g].session, s), strict)
  {
    hide Sound;
    var w, sid := m.workers[g].(stopRequested := true), m.workers[g].session;
    StatusKeeps(m, sid, s, strict);
    WorkerFacts(WithStatus(m, sid, s), g, strict);
    WorkerKeeps(WithStatus(m, sid, s), g, w, strict);
    assert WithWorker(WithStatus(m, sid, s), g, w) == WithStatus(WithWorker(m, g, w), sid, s);
  }

  lemma AcceptKeeps(m: Machine, g: Generation, f: Frame, stopped: bool, strict: bool)
    requires Sound(m, strict) && Owns(m, g) && m.workers[g].session in m.status
    requires f.Checkpoint? && m.workers[g].pending.Some? ==>
               m.workers[g].pending == Some(f.identity) && f.identity.action.Pause?
    requires m.workers[g].rollback != Some(true)
    ensures Sound(Accept(m, g, f, stopped), strict) && g in Accept(m, g, f, stopped).workers
    ensures Accept(m, g, f, stopped).workers[g].rollback == m.workers[g].rollback
  {
    hide Sound, FailSession;
    var sid := m.workers[g].session;
    FailKeeps(m, g, stopped, strict);
    SessionFacts(m, sid, strict);
    match f {
      case StatusRunning(_) => StatusKeeps(m, sid, Running, strict);
      case InputRequest => StatusKeeps(m, sid, WaitingForInput, strict);
      case Checkpoint(identity, evidence) =>
        if m.status[sid].Pausing? && evidence {
          CheckpointKeeps(m, g, identity, strict);
        }
      case CheckpointFailure(_) => StatusKeeps(m, sid, Interrupted, strict);
      case Completion(exitCode, unfinished) =>
        StopRequestKeeps(m, g, if exitCode != 0 then Failed else if unfinished then Ready else Completed, strict);
      case Failure => StopRequestKeeps(m, g, Failed, strict);
      case _ =>
    }
  }

  lemma ApplyKeeps(m: Machine, g: Generation, f: Frame, stopped: bool, strict: bool)
    requires Sound(m, strict) && Owns(m, g) && m.workers[g].session in m.status && m.workers[g].rollback != Some(true)
    ensures Sound(ApplyFrame(m, g, f, stopped), strict) && g in ApplyFrame(m, g, f, stopped).workers
    ensures ApplyFrame(m, g, f, stopped).workers[g].rollback == m.workers[g].rollback
  {
    hide Sound, Accept;
    var pending := m.workers[g].pending;
    if pending.None? || (Acknowledges(pending.value.action, f) && f.identity == pending.value) || f.Diagnostic? {
      AcceptKeeps(m, g, f, stopped, strict);
    }
    if pending.Some? && pending.value.action.Pause? {
      StopRequestKeeps(m, g, Interrupted, strict);
    }
  }

  lemma ReadKeeps(m: Machine, g: Generation, f: Frame, stopped: bool, strict: bool)
    requires Sound(m, strict)
    ensures Sound(ReadFrame(m, g, f, stopped), strict)
    ensures Sound(ReadError(m, g, stopped), strict) && Sound(ReadEnd(m, g, stopped), strict)
  {
    hide Sound, ApplyFrame, FailSession, InterruptSession;
    if g in m.workers && m.workers[g].reader.Reading? {
      WorkerFacts(m, g, strict);
      LeaveKeeps(m, g, strict);
      FailKeeps(m, g, stopped, strict);
      LeaveKeeps(FailSession(m, g, stopped), g, strict);
      InterruptKeeps(m, g, stopped, strict);
      LeaveKeeps(InterruptSession(m, g, stopped), g, strict);
      if Owns(m, g) && m.workers[g].session in m.status {
        ApplyKeeps(m, g, f, stopped, strict);
        LeaveKeeps(ApplyFrame(m, g, f, stopped), g, strict);
      }
    }
  }

  lemma ReapKeeps(m: Machine, g: Generation, stopped: bool, strict: bool)
    requires Sound(m, strict)
    ensures Sound(ReapWorker(m, g, stopped), strict)
  {
    hide Sound;
    if g in m.workers && m.workers[g].reader.Leaving? {
      RecordKeeps(m, g, stopped, strict);
      var n := Record(m, g, stopped);
      WorkerFacts(n, g, strict);
      WorkerKeeps(n, g, n.workers[g].(reader := Reaped(stopped)), strict);
    }
  }

  /** The status a finished reader leaves, and whether the slot was emptied. */
  lemma FinishKeeps(m: Machine, g: Generation, strict: bool)
    requires Sound(m, strict)
    ensures Sound(FinishReader(m, g), strict)
  {
    hide Sound;
    if g in m.workers && m.workers[g].reader.Reaped? {
      var w, sid := m.workers[g], m.workers[g].session;
      WorkerFacts(m, g, strict);
      WorkerKeeps(m, g, w.(reader := Gone), strict);
      var left := WithWorker(m, g, w.(reader := Gone));
      RecordKeeps(left, g, w.reader.stopped, strict);
      if Owns(m, g) && w.reader.stopped {
        DropKeeps(left, sid, strict);
        ReleaseKeeps(Drop(left, sid), sid, strict);
        if w.checkpointed {
          PausedKeeps(left, g, strict);
        }
      } else {
        ReleaseIfEmpty(left, sid, strict);
        StatusKeeps(Record(left, g, w.reader.stopped), sid, Interrupted, strict);
        ReleaseIfEmpty(WithStatus(Record(left, g, w.reader.stopped), sid, Interrupted), sid, strict);
        ReleaseIfEmpty(Record(left, g, w.reader.stopped), sid, strict);
      }
    }
  }

  lemma ReleaseIfEmpty(m: Machine, sid: SessionId, strict: bool)
    requires Sound(m, strict)
    ensures sid !in m.running ==> Sound(Release(m, sid), strict)
  {
    if sid !in m.running {
      ReleaseKeeps(m, sid, strict);
    }
  }

  /** A worker that answered the pause and is confirmed stopped pauses its session. */
  lemma PausedKeeps(m: Machine, g: Generation, strict: bool)
    requires Sound(m, strict) && Owns(m, g) && m.workers[g].checkpointed
    ensures var sid := m.workers[g].session;
            var paused := Log(WithStatus(Drop(Record(m, g, true), sid), sid, Paused), PausedBy(sid, g));
            Sound(paused, strict) && Sound(Release(paused, sid), strict)
  {
    hide Sound;
    var sid := m.workers[g].session;
    RecordKeeps(m, g, true, strict);
    var recorded := Record(m, g, true);
    WorkerFacts(recorded, g, strict);
    DropKeeps(recorded, sid, strict);
    StatusKeeps(Drop(recorded, sid), sid, Paused, strict);
    LogKeeps(WithStatus(Drop(recorded, sid), sid, Paused), PausedBy(sid, g), strict);
    ReleaseKeeps(Log(WithStatus(Drop(recorded, sid), sid, Paused), PausedBy(sid, g)), sid, strict);
  }

  lemma RetryKeeps(m: Machine, sid: SessionId, stopped: bool, strict: bool)
    requires Sound(m, strict)
    ensures Sound(RetryCleanup(m, sid, stopped), strict)
  {
    hide Sound;
    if sid in m.running && m.running[sid] in m.workers {
      var g, w := m.running[sid], m.workers[m.running[sid]];
      RecordKeeps(m, g, stopped, strict);
      SessionFacts(m, sid, strict);
      if stopped {
        var n := Record(m, g, stopped);
        DropKeeps(n, sid, strict);
        if w.rollback.Some? {
          FinalizeKeeps(Drop(n, sid), sid, w.rollback.value, strict);
        }
        ReleaseKeeps(Drop(n, sid), sid, strict);
      }
    }
  }

  /** A launch waits only for a slot that is empty and not being stopped. */
  lemma WaitingLaunchIsFree(m: Machine, sid: SessionId, strict: bool)
    requires Sound(m, strict) && sid in m.queued && m.queued[sid].QueuedLaunch?
    ensures strict ==> SlotFree(Dequeue(m, sid), sid)
  {
    if strict {
      assert SessionSound(m, sid, strict);
      forall request | request in m.stopping ensures m.stopping[request].session != sid {
        assert StopSound(m, request, strict);
      }
    }
  }

  lemma RunQueuedKeeps(
    m: Machine, sid: SessionId, capacity: CapacityAnswer, answer: LaunchAnswer, written: bool, stopped: bool, strict: bool)
    requires Sound(m, strict)
    ensures Sound(RunQueued(m, sid, capacity, answer, written, stopped), strict)
  {
    hide Sound;
    if sid in m.queued {
      SessionFacts(m, sid, strict);
      DequeueKeeps(m, sid, strict);
      var n := Dequeue(m, sid);
      StatusKeeps(n, sid, Failed, strict);
      StatusKeeps(n, sid, Running, strict);
      if m.queued[sid].QueuedLaunch? {
        WaitingLaunchIsFree(m, sid, strict);
        LaunchKeeps(n, sid, m.queued[sid].rollback, answer, strict);
      } else if sid in m.running {
        FailKeeps(n, m.running[sid], stopped, strict);
      }
    }
  }

  // ---------------------------------------------------------------------------------------------
  // Runs

  datatype Step =
    | Start(sid: SessionId, claimed: bool, granted: bool, answer: LaunchAnswer)
    | Resume(sid: SessionId, acquire: ResumeAnswer, granted: bool, answer: LaunchAnswer)
    | AskPause(sid: SessionId, request: RequestId, written: bool, stopped: bool)
    | Stop(sid: SessionId, command: StopCommand, alive: bool, request: RequestId, stopped: bool)
    | StopEnds(request: RequestId, stopped: bool)
    | Input(sid: SessionId)
    | FrameRead(generation: Generation, frame: Frame, stopped: bool)
    | StreamFailed(generation: Generation, stopped: bool)
    | StreamEnded(generation: Generation, stopped: bool)
    | Reap(generation: Generation, stopped: bool)
    | ReaderFinishes(generation: Generation)
    | CleanupRetried(sid: SessionId, stopped: bool)
    | QueueServed(sid: SessionId, capacity: CapacityAnswer, answer: LaunchAnswer, written: bool, stopped: bool)

  function StopTarget(command: Command): Status {
    if command.Cancel? then Cancelled else Interrupted
  }

  function Next(m: Machine, s: Step): Machine {
    match s
    case Start(sid, claimed, granted, answer) => StartSession(m, sid, claimed, granted, answer)
    case Resume(sid, acquire, granted, answer) => ResumeSession(m, sid, acquire, granted, answer)
    case AskPause(sid, request, written, stopped) => PauseSession(m, sid, request, written, stopped)
    case Stop(sid, command, alive, request, stopped) =>
      TerminateSession(m, sid, command, StopTarget(command), alive, request, stopped)
    case StopEnds(request, stopped) => EndTermination(m, request, stopped)
    case Input(sid) => ProvideInput(m, sid)
    case FrameRead(g, frame, stopped) => ReadFrame(m, g, frame, stopped)
    case StreamFailed(g, stopped) => ReadError(m, g, stopped)
    case StreamEnded(g, stopped) => ReadEnd(m, g, stopped)
    case Reap(g, stopped) => ReapWorker(m, g, stopped)
    case ReaderFinishes(g) => FinishReader(m, g)
    case CleanupRetried(sid, stopped) => RetryCleanup(m, sid, stopped)
    case QueueServed(sid, capacity, answer, written, stopped) => RunQueued(m, sid, capacity, answer, written, stopped)
  }

  /** A user's command that launches its session, now or once capacity is granted. */
  predicate Schedules(m: Machine, s: Step) {
    || (s.Start? && s.sid !in m.status && s.claimed)
    || (s.Resume? && s.sid in m.status && s.sid !in m.running && s.acquire.Acquired?)
  }

  /**
   The launch overlaps with what was asked before: a stop of the session's last worker is still being
   waited for, or an earlier launch is still queued and this one does not just replace it.
   */
  predicate Overlaps(m: Machine, s: Step) {
    Schedules(m, s)
    && (BeingStopped(m, s.sid) || (s.granted && s.sid in m.queued && m.queued[s.sid].QueuedLaunch?))
  }

  lemma StepKeeps(m: Machine, s: Step, strict: bool)
    requires Sound(m, strict) && (strict ==> !Overlaps(m, s))
    ensures Sound(Next(m, s), strict)
  {
    hide Sound;
    match s {
      case Start(sid, claimed, granted, answer) =>
        if sid !in m.status && claimed {
          SessionFacts(m, sid, strict);
          LeasesKeep(m, m.leases + {sid}, strict);
          ScheduleKeeps(m.(leases := m.leases + {sid}), sid, true, granted, answer, strict);
        }
      case Resume(sid, acquire, granted, answer) =>
        if !(sid in m.running || sid !in m.status || acquire.Unavailable?) {
          LeasesKeep(m, m.leases + {sid}, strict);
          if acquire.Unrecoverable? {
            ReleaseKeeps(m.(leases := m.leases + {sid}), sid, strict);
          } else {
            ScheduleKeeps(m.(leases := m.leases + {sid}), sid, false, granted, answer, strict);
          }
        }
      case AskPause(sid, request, written, stopped) => PauseKeeps(m, sid, request, written, stopped, strict);
      case Stop(sid, command, alive, request, stopped) =>
        TerminateKeeps(m, sid, command, StopTarget(command), alive, request, stopped, strict);
      case StopEnds(request, stopped) => EndTerminationKeeps(m, request, stopped, strict);
      case Input(sid) => InputKeeps(m, sid, strict);
      case FrameRead(g, frame, stopped) => ReadKeeps(m, g, frame, stopped, strict);
      case StreamFailed(g, stopped) => ReadKeeps(m, g, Frame.Failure, stopped, strict);
      case StreamEnded(g, stopped) => ReadKeeps(m, g, Frame.Failure, stopped, strict);
      case Reap(g, stopped) => ReapKeeps(m, g, stopped, strict);
      case ReaderFinishes(g) => FinishKeeps(m, g, strict);
      case CleanupRetried(sid, stopped) => RetryKeeps(m, sid, stopped, strict);
      case QueueServed(sid, capacity, answer, written, stopped) =>
        RunQueuedKeeps(m, sid, capacity, answer, written, stopped, strict);
    }
  }

  /** Saved sessions at the start: nothing runs, nothing is queued. */
  predicate Initial(m: Machine) {
    m.running == map[] && m.queued == map[] && m.workers == map[] && m.stopping == map[] && m.history == []
  }

  function After(m: Machine, steps: seq<Step>): Machine {
    if steps == [] then m else Next(After(m, steps[..|steps| - 1]), steps[|steps| - 1])
  }

  /** No launch of the run overlaps. */
  predicate Separate(m: Machine, steps: seq<Step>) {
    forall i | 0 <= i < |steps| :: !Overlaps(After(m, steps[..i]), steps[i])
  }

  lemma InitialIsSound(m: Machine, strict: bool)
    requires Initial(m)
    ensures Sound(m, strict)
  {
  }

  lemma {:induction false} RunKeeps(m: Machine, steps: seq<Step>, strict: bool)
    requires Sound(m, strict) && (strict ==> Separate(m, steps))
    ensures Sound(After(m, steps), strict)
  {
    hide Sound, Next, Overlaps;
    if steps != [] {
      var earlier := steps[..|steps| - 1];
      forall i | strict && 0 <= i < |earlier| ensures !Overlaps(After(m, earlier[..i]), earlier[i]) {
        assert earlier[..i] == steps[..i];
      }
      RunKeeps(m, earlier, strict);
      StepKeeps(After(m, earlier), steps[|steps| - 1], strict);
    }
  }

  /**
   Whatever the interleaving, as long as no launch overlaps: when a session's lease is released, every
   worker it ever had is confirmed stopped.
   */
  lemma LeaseOutlivesItsWorkers(m: Machine, steps: seq<Step>, i: nat, sid: SessionId, g: Generation)
    requires Initial(m) && Separate(m, steps)
    requires var h := After(m, steps).history;
             i < |h| && h[i] == Released(sid) && Launched(sid, g) in h[..i]
    ensures Confirmed(g) in After(m, steps).history[..i]
  {
    InitialIsSound(m, true);
    RunKeeps(m, steps, true);
    var h := After(m, steps).history;
    assert EventSafe(h[..i], h[i], true);
  }

  /** In any run at all, a worker pauses its session only with its own matching checkpoint and a confirmed stop. */
  lemma PauseIsEarned(m: Machine, steps: seq<Step>, i: nat, sid: SessionId, g: Generation)
    requires Initial(m)
    requires i < |After(m, steps).history| && After(m, steps).history[i] == PausedBy(sid, g)
    ensures var before := After(m, steps).history[..i];
            Launched(sid, g) in before && Confirmed(g) in before && PauseAnswered(before, g)
  {
    InitialIsSound(m, false);
    RunKeeps(m, steps, false);
    var h := After(m, steps).history;
    assert EventSafe(h[..i], h[i], false);
  }

  /** The sessions' statuses, slots and leases are as they were. */
  predicate SessionsUntouched(m: Machine, n: Machine) {
    n.running == m.running && n.leases == m.leases && n.status == m.status && n.queued == m.queued
  }

  /** A reader whose worker was replaced leaves the slot, the lease and the status alone. */
  lemma RetiredReadersAreHarmless(m: Machine, g: Generation, f: Frame, stopped: bool)
    requires g in m.workers && m.workers[g].session in m.running && !Owns(m, g)
    ensures SessionsUntouched(m, ReadFrame(m, g, f, stopped))
    ensures SessionsUntouched(m, ReadError(m, g, stopped)) && SessionsUntouched(m, ReadEnd(m, g, stopped))
    ensures SessionsUntouched(m, ReapWorker(m, g, stopped)) && SessionsUntouched(m, FinishReader(m, g))
  {
    hide ApplyFrame;
    RetiredReaderFinishes(m, g);
  }

  lemma RetiredReaderFinishes(m: Machine, g: Generation)
    requires g in m.workers && m.workers[g].session in m.running && !Owns(m, g)
    ensures SessionsUntouched(m, FinishReader(m, g))
  {
  }

  // ---------------------------------------------------------------------------------------------
  // Slots and leases, step by step

  /** Every slot that empties and every lease that goes had its workers confirmed stopped. */
  ghost predicate GoesSafely(m: Machine, n: Machine) {
    && (forall sid | sid in m.running && sid !in n.running :: Confirmed(m.running[sid]) in n.history)
    && (forall sid | sid in m.leases && sid !in n.leases :: AllConfirmed(n.history, sid))
  }

  /** A critical section that, from a sound state, leads to one and lets go of nothing too early. */
  ghost predicate SafeSection(m: Machine, n: Machine) {
    Sound(m, true) ==> Sound(n, true) && GoesSafely(m, n)
  }

  /** What happened to the session did not happen to any other. */
  ghost predicate OnlyTouches(m: Machine, n: Machine, sid: SessionId) {
    forall other | other != sid ::
      && (other in n.status <==> other in m.status) && (other in m.status ==> n.status[other] == m.status[other])
      && (other in n.running <==> other in m.running) && (other in m.running ==> n.running[other] == m.running[other])
  }

  lemma EmptySlotIsConfirmed(m: Machine, sid: SessionId)
    requires Sound(m, true) && sid !in m.running
    ensures AllConfirmed(m.history, sid)
  {
    forall g: Generation | Launched(sid, g) in m.history ensures Confirmed(g) in m.history {
      assert EventRegistered(m, Launched(sid, g)) && WorkerSound(m, g, true);
    }
  }

  /** Leases go only with their slots, and nothing that happened is forgotten. */
  ghost predicate Lasting(m: Machine, n: Machine) {
    m.history <= n.history && forall sid | sid in m.leases && sid !in n.leases :: sid !in n.running
  }

  lemma LastingGoesSafely(m: Machine, n: Machine)
    requires Sound(m, true) && Sound(n, true) && Lasting(m, n)
    ensures GoesSafely(m, n)
  {
    hide PauseAnswered, SafeHistory, AllConfirmed, StopSound;
    forall sid | sid in m.running && sid !in n.running ensures Confirmed(m.running[sid]) in n.history {
      var g := m.running[sid];
      assert SessionSound(m, sid, true) && WorkerSound(m, g, true);
      assert Launched(sid, g) in n.history;
      assert EventRegistered(n, Launched(sid, g)) && WorkerSound(n, g, true);
    }
    forall sid | sid in m.leases && sid !in n.leases ensures AllConfirmed(n.history, sid) {
      EmptySlotIsConfirmed(n, sid);
    }
  }

  /** What follows a section that keeps the leases lasts as it does on its own. */
  lemma LastingAfter(m: Machine, k: Machine, n: Machine)
    requires k.leases == m.leases && m.history <= k.history && Lasting(k, n)
    ensures Lasting(m, n)
  {
  }

  lemma ReleaseLasts(m: Machine, sid: SessionId)
    requires sid !in m.running
    ensures Lasting(m, Release(m, sid))
  {
  }

  lemma FinalizeLasts(m: Machine, sid: SessionId, rollback: bool)
    requires sid !in m.running
    ensures Lasting(m, FinalizeLaunchFailure(m, sid, rollback))
  {
    hide Release;
    ReleaseLasts(m, sid);
    ReleaseLasts(WithStatus(m, sid, Failed), sid);
  }

  lemma LaunchLasts(m: Machine, sid: SessionId, rollback: bool, answer: LaunchAnswer)
    requires sid !in m.running
    ensures Lasting(m, Launch(m, sid, rollback, answer))
  {
    hide Release, FinalizeLaunchFailure, Lasting;
    match answer {
      case NoProcess(persisted) => NoProcessLasts(m, sid, persisted);
      case SetupFailed(stopped) =>
        var spawned := Spawn(WithStatus(m, sid, Running), sid);
        AbandonLasts(spawned, sid, m.nextGeneration, rollback, stopped);
        LastingAfter(m, spawned, AbandonSetup(spawned, sid, m.nextGeneration, rollback, stopped));
      case Started => StartLasts(m, sid);
    }
  }

  lemma NoProcessLasts(m: Machine, sid: SessionId, persisted: bool)
    requires sid !in m.running
    ensures Lasting(m, Launch(m, sid, false, NoProcess(persisted)))
    ensures Launch(m, sid, true, NoProcess(persisted)) == Launch(m, sid, false, NoProcess(persisted))
  {
    hide Release;
    ReleaseLasts(WithStatus(m, sid, Failed), sid);
  }

  lemma StartLasts(m: Machine, sid: SessionId)
    ensures Lasting(m, Launch(m, sid, false, Started))
    ensures Launch(m, sid, true, Started) == Launch(m, sid, false, Started)
  {
  }

  lemma AbandonLasts(m: Machine, sid: SessionId, g: Generation, rollback: bool, stopped: bool)
    requires g in m.workers
    ensures Lasting(m, AbandonSetup(m, sid, g, rollback, stopped))
  {
    hide FinalizeLaunchFailure;
    FinalizeLasts(Drop(Record(m, g, true), sid), sid, rollback);
  }

  lemma FailLasts(m: Machine, g: Generation, stopped: bool)
    ensures Lasting(m, FailSession(m, g, stopped)) && Lasting(m, InterruptSession(m, g, stopped))
    ensures FailSession(m, g, stopped).leases == m.leases
    ensures InterruptSession(m, g, stopped).leases == m.leases
  {
  }

  lemma PauseLasts(m: Machine, sid: SessionId, request: RequestId, written: bool, stopped: bool)
    requires Sound(m, true)
    ensures Lasting(m, PauseSession(m, sid, request, written, stopped))
  {
    SessionFacts(m, sid, true);
    hide Sound, FailSession;
    if sid in m.running && m.running[sid] in m.workers {
      var g := m.running[sid];
      var asked := WithWorker(m, g, m.workers[g].(pending := Some(Identity(Pause, g, request))));
      FailLasts(Log(WithStatus(Dequeue(asked, sid), sid, Pausing), PauseSent(g, request)), g, stopped);
    }
  }

  lemma FinishStopLasts(m: Machine, sid: SessionId, target: Status)
    ensures Lasting(m, FinishStop(m, sid, target))
    ensures m.history <= FinishStop(m, sid, target).history
    ensures forall other | other in m.leases && other !in FinishStop(m, sid, target).leases ::
              other !in FinishStop(m, sid, target).running
  {
  }

  lemma StopIdleLasts(m: Machine, sid: SessionId, command: Command, target: Status)
    requires sid in m.status && sid !in m.running
    ensures Lasting(m, StopIdle(m, sid, command, target))
  {
    hide FinishStop;
    FinishStopLasts(Dequeue(m, sid), sid, target);
  }

  lemma StopWorkerLasts(
    m: Machine, sid: SessionId, g: Generation, identity: Identity, target: Status, alive: bool, stopped: bool)
    requires g in m.workers
    ensures Lasting(m, StopWorker(m, sid, g, identity, target, alive, stopped))
  {
    hide FinishStop;
    FinishStopLasts(m, sid, target);
    FinishStopLasts(Record(m, g, true), sid, target);
  }

  lemma TerminateLasts(
    m: Machine, sid: SessionId, command: Command, target: Status, alive: bool, request: RequestId, stopped: bool)
    requires Sound(m, true)
    ensures Lasting(m, TerminateSession(m, sid, command, target, alive, request, stopped))
  {
    SessionFacts(m, sid, true);
    hide Sound, StopIdle, StopWorker;
    if sid in m.status {
      if sid in m.running {
        var g := m.running[sid];
        StopWorkerLasts(Dequeue(m, sid), sid, g, Identity(command, g, request), target, alive, stopped);
      } else {
        StopIdleLasts(m, sid, command, target);
      }
    }
  }

  lemma FrameLasts(m: Machine, g: Generation, f: Frame, stopped: bool)
    requires Owns(m, g) && m.workers[g].session in m.status
    ensures Lasting(m, ApplyFrame(m, g, f, stopped)) && ApplyFrame(m, g, f, stopped).leases == m.leases
  {
    hide FailSession, Lasting;
    FailLasts(m, g, stopped);
    if ApplyFrame(m, g, f, stopped) != FailSession(m, g, stopped) {
      FrameWithoutFailure(m, g, f, stopped);
    }
  }

  lemma FrameWithoutFailure(m: Machine, g: Generation, f: Frame, stopped: bool)
    requires Owns(m, g) && m.workers[g].session in m.status
    ensures ApplyFrame(m, g, f, stopped) == FailSession(m, g, stopped)
            || (m.history <= ApplyFrame(m, g, f, stopped).history && ApplyFrame(m, g, f, stopped).leases == m.leases)
    ensures m.history <= ApplyFrame(m, g, f, stopped).history && ApplyFrame(m, g, f, stopped).leases == m.leases ==>
              Lasting(m, ApplyFrame(m, g, f, stopped))
  {
    hide FailSession;
  }

  lemma ReaderLasts(m: Machine, g: Generation, f: Frame, stopped: bool)
    ensures Lasting(m, ReadFrame(m, g, f, stopped)) && Lasting(m, ReadError(m, g, stopped))
    ensures Lasting(m, ReadEnd(m, g, stopped)) && Lasting(m, ReapWorker(m, g, stopped))
  {
    hide ApplyFrame, FailSession, InterruptSession;
    FailLasts(m, g, stopped);
    if Owns(m, g) && m.workers[g].session in m.status {
      FrameLasts(m, g, f, stopped);
    }
  }

  lemma LeavingLasts(m: Machine, g: Generation, stopped: bool)
    requires Owns(m, g) && m.workers[g].session in m.status
    ensures var n := LeaveSlot(m, g, stopped);
      n.leases == m.leases && m.history <= n.history && g in n.workers && m.workers[g].session in n.status
  {
  }

  lemma FinishLasts(m: Machine, g: Generation)
    ensures Lasting(m, FinishReader(m, g))
  {
    hide LeaveSlot, Release;
    if g in m.workers && m.workers[g].reader.Reaped? && m.workers[g].session in m.status {
      var sid, left := m.workers[g].session, WithWorker(m, g, m.workers[g].(reader := Gone));
      if Owns(m, g) {
        LeavingLasts(left, g, m.workers[g].reader.stopped);
      }
      var n := if Owns(m, g) then LeaveSlot(left, g, m.workers[g].reader.stopped) else left;
      if sid !in n.running {
        ReleaseLasts(n, sid);
        LastingAfter(m, n, Release(n, sid));
      }
    }
  }

  lemma StopEndLasts(m: Machine, request: RequestId, stopped: bool)
    ensures Lasting(m, EndTermination(m, request, stopped))
  {
    hide FinishStop;
    if request in m.stopping && m.stopping[request].generation in m.workers {
      var stop := m.stopping[request];
      var n := Record(m.(stopping := m.stopping - {request}), stop.generation, stopped);
      FinishStopLasts(n, stop.session, stop.target);
    }
  }

  lemma RetryLasts(m: Machine, sid: SessionId, stopped: bool)
    ensures Lasting(m, RetryCleanup(m, sid, stopped))
  {
    hide FinalizeLaunchFailure, Release;
    if sid in m.running && m.running[sid] in m.workers {
      var g, w := m.running[sid], m.workers[m.running[sid]];
      var n := Drop(Record(m, g, stopped), sid);
      FinalizeLasts(n, sid, w.rollback == Some(true));
      ReleaseLasts(n, sid);
    }
  }

  lemma QueueLasts(
    m: Machine, sid: SessionId, capacity: CapacityAnswer, answer: LaunchAnswer, written: bool, stopped: bool)
    requires Sound(m, true)
    ensures Lasting(m, RunQueued(m, sid, capacity, answer, written, stopped))
  {
    SessionFacts(m, sid, true);
    DequeueKeeps(m, sid, true);
    hide Sound, FailSession, Launch;
    if sid in m.queued {
      var n := Dequeue(m, sid);
      if sid in m.running {
        FailLasts(n, m.running[sid], stopped);
      } else if m.queued[sid].QueuedLaunch? {
        LaunchLasts(n, sid, m.queued[sid].rollback, answer);
      }
    }
  }

  lemma ScheduleLasts(m: Machine, sid: SessionId, rollback: bool, granted: bool, answer: LaunchAnswer)
    requires sid !in m.running
    ensures Lasting(m, ScheduleSession(m.(leases := m.leases + {sid}), sid, rollback, granted, answer))
  {
    var n := m.(leases := m.leases + {sid});
    LaunchLasts(n, sid, rollback, answer);
    hide Launch;
  }

  lemma StepLasts(m: Machine, s: Step)
    requires Sound(m, true)
    ensures Lasting(m, Next(m, s))
  {
    hide Sound, FailSession, Launch, ApplyFrame, ScheduleSession, TerminateSession;
    hide ReadFrame, ReadError, ReadEnd, ReapWorker, FinishReader, EndTermination, RetryCleanup, RunQueued, PauseSession;
    match s {
      case Start(sid, claimed, granted, answer) =>
        if sid !in m.status {
          SessionFacts(m, sid, true);
          ScheduleLasts(m, sid, true, granted, answer);
        }
      case Resume(sid, acquire, granted, answer) =>
        if sid !in m.running {
          ScheduleLasts(m, sid, false, granted, answer);
        }
      case AskPause(sid, request, written, stopped) => PauseLasts(m, sid, request, written, stopped);
      case Stop(sid, command, alive, request, stopped) =>
        TerminateLasts(m, sid, command, StopTarget(command), alive, request, stopped);
      case StopEnds(request, stopped) => StopEndLasts(m, request, stopped);
      case Input(sid) =>
      case FrameRead(g, frame, stopped) => ReaderLasts(m, g, frame, stopped);
      case StreamFailed(g, stopped) => ReaderLasts(m, g, Frame.Failure, stopped);
      case StreamEnded(g, stopped) => ReaderLasts(m, g, Frame.Failure, stopped);
      case Reap(g, stopped) => ReaderLasts(m, g, Frame.Failure, stopped);
      case ReaderFinishes(g) => FinishLasts(m, g);
      case CleanupRetried(sid, stopped) => RetryLasts(m, sid, stopped);
      case QueueServed(sid, capacity, answer, written, stopped) =>
        QueueLasts(m, sid, capacity, answer, written, stopped);
    }
  }

  /** No critical section lets go of a slot or a lease too early, short of an overlapping launch. */
  lemma StepGoesSafely(m: Machine, s: Step)
    requires Sound(m, true) && !Overlaps(m, s)
    ensures GoesSafely(m, Next(m, s))
  {
    hide Sound, Overlaps, GoesSafely, Next, Lasting;
    StepKeeps(m, s, true);
    StepLasts(m, s);
    LastingGoesSafely(m, Next(m, s));
  }

  // ---------------------------------------------------------------------------------------------
  // The exception

  /** However the threads go on from here, short of further overlaps, what happens is safe. */
  ghost predicate SafeFromHere(m: Machine) {
    forall steps: seq<Step> :: Separate(m, steps) ==> SafeHistory(After(m, steps).history, true)
  }

  /**
   A launch keeps the session safe exactly when it does not overlap. Over a queued launch it fills the
   slot and leaves the queue entry, so that the session comes to have two workers, and the end of one
   releases the lease of the other. During a stop, the end of the wait takes the new worker's slot and
   lease for those of the worker it stopped.
   */
  lemma LaunchIsSafeIff(m: Machine, s: Step)
    requires Sound(m, true) && Schedules(m, s) && s.answer.Started?
    ensures SafeFromHere(Next(m, s)) <==> !Overlaps(m, s)
  {
    hide Sound, Next, SafeHistory;
    if Overlaps(m, s) {
      if BeingStopped(m, s.sid) {
        LaunchDuringStopIsUnsafe(m, s);
      } else {
        LaunchOverQueueIsUnsafe(m, s);
      }
    } else {
      StepKeeps(m, s, true);
      forall steps: seq<Step> | Separate(Next(m, s), steps) ensures SafeHistory(After(Next(m, s), steps).history, true) {
        RunKeeps(Next(m, s), steps, true);
        HistoryIsSafe(After(Next(m, s), steps), true);
      }
    }
  }

  lemma HistoryIsSafe(m: Machine, strict: bool)
    requires Sound(m, strict)
    ensures SafeHistory(m.history, strict)
  {
  }

  /** The last thing that happened is the release, and a worker was never confirmed stopped. */
  ghost predicate ReleasedTooEarly(h: seq<Event>, sid: SessionId, g: Generation) {
    |h| > 0 && h[|h| - 1] == Released(sid) && Launched(sid, g) in h[..|h| - 1] && Confirmed(g) !in h
  }

  lemma TooEarlyIsUnsafe(h: seq<Event>, sid: SessionId, g: Generation)
    requires ReleasedTooEarly(h, sid, g)
    ensures !SafeHistory(h, true)
  {
    var before := h[..|h| - 1];
    assert Confirmed(g) !in before;
    assert !AllConfirmed(before, sid);
    assert !EventSafe(before, h[|h| - 1], true);
  }

  lemma NotYetConfirmed(m: Machine, g: Generation)
    requires Sound(m, true) && g >= m.nextGeneration
    ensures Confirmed(g) !in m.history
  {
    hide PauseAnswered, SafeHistory, SessionSound, StopSound;
    forall e | e in m.history && e.Confirmed? ensures e.generation < m.nextGeneration {
      assert EventRegistered(m, e);
      assert WorkerSound(m, e.generation, true);
    }
  }

  lemma LastIsRelease(h: seq<Event>, before: seq<Event>, sid: SessionId, g: Generation)
    requires Confirmed(g) !in h && Launched(sid, g) in before && Confirmed(g) !in before
    ensures ReleasedTooEarly(h + before + [Released(sid)], sid, g)
  {
    var n := h + before + [Released(sid)];
    assert n[..|n| - 1] == h + before;
  }

  /** A running worker of this session that has neither been asked nor said anything yet. */
  predicate ReadsForSession(m: Machine, sid: SessionId, g: Generation) {
    && sid in m.running && m.running[sid] == g && g in m.workers
    && m.workers[g] == Worker(sid, Reading, None, false, false, false, false, None)
    && sid in m.status && m.status[sid] == Running
  }

  /** The session's worker `m.nextGeneration` has just been launched, and nothing else happened to it. */
  predicate JustLaunched(m: Machine, n: Machine, sid: SessionId) {
    && ReadsForSession(n, sid, m.nextGeneration) && sid in n.leases && n.stopping == m.stopping
    && n.nextGeneration == m.nextGeneration + 1
    && (forall g | g in m.workers :: g in n.workers)
    && n.history == m.history + [Launched(sid, m.nextGeneration)]
  }

  lemma LaunchFills(m: Machine, sid: SessionId, rollback: bool)
    requires sid in m.leases
    ensures JustLaunched(m, Launch(m, sid, rollback, Started), sid)
    ensures Launch(m, sid, rollback, Started).queued == m.queued
  {
  }

  // ---------------------------------------------------------------------------------------------
  // A launch during a stop

  /** The launch itself, and, when it had to be queued, its turn. */
  function LaunchSteps(s: Step): seq<Step>
    requires s.Start? || s.Resume?
  {
    if s.granted then [] else [QueueServed(s.sid, Granted, Started, true, true)]
  }

  lemma LaunchDuringStopIsUnsafe(m: Machine, s: Step)
    requires Sound(m, true) && Schedules(m, s) && s.answer.Started? && BeingStopped(m, s.sid)
    ensures !SafeFromHere(Next(m, s))
  {
    hide Sound, Next, SafeHistory, ReleasedTooEarly, After, Separate, LaunchSteps;
    var request :| request in m.stopping && m.stopping[request].session == s.sid;
    var steps := LaunchSteps(s) + [StopEnds(request, true)];
    StopReleasesTooEarly(m, s, request);
    TooEarlyIsUnsafe(After(Next(m, s), steps).history, s.sid, m.nextGeneration);
    NoLaunches(Next(m, s), s, request);
    UnsafeRun(Next(m, s), steps);
  }

  lemma UnsafeRun(m: Machine, steps: seq<Step>)
    requires Separate(m, steps) && !SafeHistory(After(m, steps).history, true)
    ensures !SafeFromHere(m)
  {
    hide SafeHistory, After, Separate;
  }

  lemma NoLaunches(m: Machine, s: Step, request: RequestId)
    requires s.Start? || s.Resume?
    ensures Separate(m, LaunchSteps(s) + [StopEnds(request, true)])
  {
    NoCommands(m, LaunchSteps(s) + [StopEnds(request, true)]);
  }

  /** The stop that was being waited for takes the lease from under the new worker. */
  lemma StopReleasesTooEarly(m: Machine, s: Step, request: RequestId)
    requires Sound(m, true) && Schedules(m, s) && s.answer.Started?
    requires request in m.stopping && m.stopping[request].session == s.sid
    ensures ReleasedTooEarly(
      After(Next(m, s), LaunchSteps(s) + [StopEnds(request, true)]).history, s.sid, m.nextGeneration)
  {
    StopFacts(m, request, true);
    GenerationIsNew(m, true);
    NotYetConfirmed(m, m.nextGeneration);
    ScheduledLaunches(m, s);
    hide Sound, Next, ReleasedTooEarly, LaunchSteps, JustLaunched;
    var steps := LaunchSteps(s) + [StopEnds(request, true)];
    LeaseTaken(m, After(Next(m, s), LaunchSteps(s)), s.sid, request);
    assert steps[..|steps| - 1] == LaunchSteps(s);
  }

  lemma LeaseTaken(m: Machine, n: Machine, sid: SessionId, request: RequestId)
    requires JustLaunched(m, n, sid) && Confirmed(m.nextGeneration) !in m.history
    requires request in m.stopping && m.stopping[request].session == sid
    requires m.stopping[request].generation in m.workers && m.nextGeneration !in m.workers
    ensures ReleasedTooEarly(Next(n, StopEnds(request, true)).history, sid, m.nextGeneration)
  {
    hide Next, ReleasedTooEarly;
    var g, stopped := m.nextGeneration, m.stopping[request].generation;
    StopTakesTheLease(n, request, sid);
    assert m.history + [Launched(sid, g)] + [Confirmed(stopped), Released(sid)]
        == m.history + [Launched(sid, g), Confirmed(stopped)] + [Released(sid)];
    LastIsRelease(m.history, [Launched(sid, g), Confirmed(stopped)], sid, g);
  }

  lemma NoCommands(m: Machine, steps: seq<Step>)
    requires forall i | 0 <= i < |steps| :: !steps[i].Start? && !steps[i].Resume?
    ensures Separate(m, steps)
  {
    hide Next;
  }

  lemma LaunchedFrom(m: Machine, k: Machine, n: Machine, sid: SessionId)
    requires JustLaunched(k, n, sid) && k.history == m.history && k.nextGeneration == m.nextGeneration
    requires k.workers == m.workers && k.stopping == m.stopping
    ensures JustLaunched(m, n, sid)
  {
  }

  lemma ScheduledLaunches(m: Machine, s: Step)
    requires Schedules(m, s) && s.answer.Started?
    ensures JustLaunched(m, After(Next(m, s), LaunchSteps(s)), s.sid)
  {
    hide Launch, JustLaunched;
    var leased := m.(leases := m.leases + {s.sid});
    var n := Next(m, s);
    if s.granted {
      LaunchFills(leased, s.sid, s.Start?);
      LaunchedFrom(m, leased, n, s.sid);
    } else {
      QueuedLaunchFills(n, s.sid);
      var served := Next(n, QueueServed(s.sid, Granted, Started, true, true));
      LaunchedFrom(m, n, served, s.sid);
      OneStep(n, QueueServed(s.sid, Granted, Started, true, true));
    }
  }

  lemma OneStep(m: Machine, s: Step)
    ensures After(m, [s]) == Next(m, s)
  {
    hide Next;
    assert [s][..0] == [];
  }

  lemma StopTakesTheLease(m: Machine, request: RequestId, sid: SessionId)
    requires request in m.stopping && m.stopping[request].session == sid
    requires m.stopping[request].generation in m.workers && sid in m.leases && sid in m.status
    ensures Next(m, StopEnds(request, true)).history
         == m.history + [Confirmed(m.stopping[request].generation), Released(sid)]
  {
  }

  // ---------------------------------------------------------------------------------------------
  // A launch over a queued one

  lemma LaunchOverQueueIsUnsafe(m: Machine, s: Step)
    requires Sound(m, true) && Schedules(m, s) && s.answer.Started?
    requires s.granted && s.sid in m.queued && m.queued[s.sid].QueuedLaunch?
    ensures !SafeFromHere(Next(m, s))
  {
    hide Sound, Next, SafeHistory, EndOfWorker;
    var sid, g, n := s.sid, m.nextGeneration, Next(m, s);
    var steps := FatalSteps(sid, g + 1);
    NotYetConfirmed(m, g);
    ScheduledLaunches(m, s);
    QueueStays(m, s);
    var served := Next(n, QueueServed(sid, Granted, Started, true, true));
    QueuedLaunchFills(n, sid);
    EndReleases(served, sid, g + 1);
    FatalStepsRun(n, sid, g + 1);
    assert m.history + [Launched(sid, g)] + [Launched(sid, g + 1)] + [Confirmed(g + 1), Released(sid)]
        == m.history + [Launched(sid, g), Launched(sid, g + 1), Confirmed(g + 1)] + [Released(sid)];
    LastIsRelease(m.history, [Launched(sid, g), Launched(sid, g + 1), Confirmed(g + 1)], sid, g);
    TooEarlyIsUnsafe(After(n, steps).history, sid, g);
    NoCommands(n, steps);
    UnsafeRun(n, steps);
  }

  lemma QueueStays(m: Machine, s: Step)
    requires Schedules(m, s) && s.answer.Started? && s.granted && s.sid in m.queued
    ensures Next(m, s).queued == m.queued
  {
  }

  lemma QueuedLaunchFills(m: Machine, sid: SessionId)
    requires sid in m.queued && m.queued[sid].QueuedLaunch? && sid in m.leases
    ensures JustLaunched(m, Next(m, QueueServed(sid, Granted, Started, true, true)), sid)
  {
    hide Launch, JustLaunched;
    LaunchFills(Dequeue(m, sid), sid, m.queued[sid].rollback);
    LaunchedFrom(m, Dequeue(m, sid), Next(m, QueueServed(sid, Granted, Started, true, true)), sid);
  }

  /** The queue is served, and the worker it starts completes. */
  function FatalSteps(sid: SessionId, g: Generation): seq<Step> {
    [QueueServed(sid, Granted, Started, true, true), FrameRead(g, Completion(0, false), true), Reap(g, true), ReaderFinishes(g)]
  }

  lemma FatalStepsRun(m: Machine, sid: SessionId, g: Generation)
    ensures After(m, FatalSteps(sid, g)) == EndOfWorker(Next(m, QueueServed(sid, Granted, Started, true, true)), g)
  {
    hide Next;
    var s := FatalSteps(sid, g);
    assert s[..3] == [s[0], s[1], s[2]] && s[..3][..2] == [s[0], s[1]] && [s[0], s[1]][..1] == [s[0]] && [s[0]][..0] == [];
    assert After(m, [s[0]]) == Next(m, s[0]);
    assert After(m, [s[0], s[1]]) == Next(Next(m, s[0]), s[1]);
    assert After(m, [s[0], s[1], s[2]]) == Next(Next(Next(m, s[0]), s[1]), s[2]);
  }

  /** The worker reports completion, its reader confirms the stop and finishes. */
  function EndOfWorker(m: Machine, g: Generation): Machine {
    var completed := Next(m, FrameRead(g, Completion(0, false), true));
    Next(Next(completed, Reap(g, true)), ReaderFinishes(g))
  }

  lemma EndReleases(m: Machine, sid: SessionId, g: Generation)
    requires ReadsForSession(m, sid, g) && sid in m.leases
    ensures EndOfWorker(m, g).history == m.history + [Confirmed(g), Released(sid)]
  {
    hide Next;
    CompletionRead(m, sid, g);
    var completed := Next(m, FrameRead(g, Completion(0, false), true));
    StopConfirmed(completed, sid, g);
    var reaped := Next(completed, Reap(g, true));
    ReaderReleases(reaped, sid, g);
    assert m.history + [Confirmed(g)] + [Released(sid)] == m.history + [Confirmed(g), Released(sid)];
  }

  predicate CompletedWith(m: Machine, sid: SessionId, g: Generation, reader: Reader, confirmed: bool) {
    && sid in m.running && m.running[sid] == g && g in m.workers
    && m.workers[g] == Worker(sid, reader, None, false, true, confirmed, false, None)
    && sid in m.status && m.status[sid] == Completed
  }

  lemma CompletionRead(m: Machine, sid: SessionId, g: Generation)
    requires ReadsForSession(m, sid, g)
    ensures var n := Next(m, FrameRead(g, Completion(0, false), true));
            CompletedWith(n, sid, g, Leaving, false) && n.history == m.history && n.leases == m.leases
  {
  }

  lemma StopConfirmed(m: Machine, sid: SessionId, g: Generation)
    requires CompletedWith(m, sid, g, Leaving, false)
    ensures var n := Next(m, Reap(g, true));
            CompletedWith(n, sid, g, Reaped(true), true) && n.history == m.history + [Confirmed(g)] && n.leases == m.leases
  {
  }

  lemma ReaderReleases(m: Machine, sid: SessionId, g: Generation)
    requires CompletedWith(m, sid, g, Reaped(true), true) && sid in m.leases
    ensures Next(m, ReaderFinishes(g)).history == m.history + [Released(sid)]
  {
  }

  // ---------------------------------------------------------------------------------------------
  // Both overlaps come about

  /** A new session is queued for want of capacity, and resumed once there is some. */
  lemma OverlapOverQueueIsReachable(m: Machine, sid: SessionId)
    requires Initial(m) && sid !in m.status
    ensures var queued := [Step.Start(sid, true, false, Started)];
      Separate(m, queued) && Overlaps(After(m, queued), Resume(sid, Acquired, true, Started))
  {
    var queued := [Step.Start(sid, true, false, Started)];
    assert queued[..0] == [];
    assert After(m, queued) == Next(m, queued[0]);
  }

  /** A worker told to stop ends by itself; its session is resumed before the one who waits for it looks. */
  function RaceSteps(sid: SessionId, g: Generation, request: RequestId): seq<Step> {
    [Step.Start(sid, true, true, Started), Stop(sid, ForceStop, true, request, true),
     StreamEnded(g, true), Reap(g, true), ReaderFinishes(g)]
  }

  /** The worker in the session's slot has been told to stop, and its reader has got this far. */
  predicate Asked(m: Machine, sid: SessionId, g: Generation, request: RequestId, reader: Reader) {
    && sid in m.running && m.running[sid] == g && g in m.workers
    && m.workers[g].session == sid && m.workers[g].reader == reader
    && m.workers[g].stopRequested && !m.workers[g].checkpointed
    && sid in m.status && m.status[sid] == Running
    && request in m.stopping && m.stopping[request].session == sid
  }

  lemma ReaderLeaves(m: Machine, sid: SessionId, g: Generation, request: RequestId)
    ensures Asked(m, sid, g, request, Reading) ==> Asked(Next(m, StreamEnded(g, true)), sid, g, request, Leaving)
    ensures Asked(m, sid, g, request, Leaving) ==> Asked(Next(m, Reap(g, true)), sid, g, request, Reaped(true))
  {
  }

  lemma SlotEmpties(m: Machine, sid: SessionId, g: Generation, request: RequestId)
    requires Asked(m, sid, g, request, Reaped(true))
    ensures Overlaps(Next(m, ReaderFinishes(g)), Resume(sid, Acquired, true, Started))
  {
    var n := Next(m, ReaderFinishes(g));
    assert request in n.stopping && n.stopping[request].session == sid;
  }

  lemma OverlapWithStopIsReachable(m: Machine, sid: SessionId, request: RequestId)
    requires Initial(m) && sid !in m.status
    ensures var steps := RaceSteps(sid, m.nextGeneration, request);
      Separate(m, steps) && Overlaps(After(m, steps), Resume(sid, Acquired, true, Started))
  {
    var g := m.nextGeneration;
    var s := RaceSteps(sid, g, request);
    StopIsAsked(m, sid, request);
    hide Next, Asked, Overlaps;
    var asked := Next(Next(m, s[0]), s[1]);
    ReaderLeaves(asked, sid, g, request);
    ReaderLeaves(Next(asked, s[2]), sid, g, request);
    SlotEmpties(Next(Next(asked, s[2]), s[3]), sid, g, request);
    RaceRuns(m, s);
    OnlyTheFirst(m, s);
  }

  lemma StopIsAsked(m: Machine, sid: SessionId, request: RequestId)
    requires Initial(m) && sid !in m.status
    ensures var s := RaceSteps(sid, m.nextGeneration, request);
      Asked(Next(Next(m, s[0]), s[1]), sid, m.nextGeneration, request, Reading) && !Overlaps(m, s[0])
  {
  }

  lemma RaceRuns(m: Machine, s: seq<Step>)
    requires |s| == 5
    ensures After(m, s) == Next(Next(Next(Next(Next(m, s[0]), s[1]), s[2]), s[3]), s[4])
  {
    hide Next;
    assert s[..4] == [s[0], s[1], s[2], s[3]] && [s[0], s[1], s[2], s[3]][..3] == [s[0], s[1], s[2]];
    assert [s[0], s[1], s[2]][..2] == [s[0], s[1]] && [s[0], s[1]][..1] == [s[0]] && [s[0]][..0] == [];
    assert After(m, [s[0]]) == Next(m, s[0]);
    assert After(m, [s[0], s[1]]) == Next(Next(m, s[0]), s[1]);
    assert After(m, [s[0], s[1], s[2]]) == Next(Next(Next(m, s[0]), s[1]), s[2]);
    assert After(m, [s[0], s[1], s[2], s[3]]) == Next(Next(Next(Next(m, s[0]), s[1]), s[2]), s[3]);
  }

  lemma OnlyTheFirst(m: Machine, steps: seq<Step>)
    requires steps != [] && !Overlaps(m, steps[0])
    requires forall i | 0 < i < |steps| :: !steps[i].Start? && !steps[i].Resume?
    ensures Separate(m, steps)
  {
    hide Next;
    assert steps[..0] == [];
  }
}
