/**
 The supervisor's session lifecycle as a state machine: what each command, each frame of a worker,
 each reader step and each scheduler step does to the sessions
 (src/devloop/portable_sessions.py:852-1030, 1099-1555, 1900-2329, 2467-2765, 3057-3145, 3260-3507).

 Every function here is one critical section. A worker's process tree and the operating system
 appear only as the answers the supervisor gets: whether a termination stopped the tree, whether a
 write reached the worker, whether capacity was granted.
 */
module SessionMachine {
  import opened Wrappers

  type SessionId = string
  type Generation = nat
  type RequestId = string

  datatype Status =
    | Ready | Queued | Running | WaitingForInput | Pausing | Paused | Interrupted | Completed | Failed | Cancelled
  {
    predicate Terminal() {
      Completed? || Failed? || Cancelled?
    }
  }

  datatype Command = Pause | ForceStop | Cancel | Shutdown

  type StopCommand = c: Command | !c.Pause? witness Cancel

  /** What identifies a lifecycle command, and what its acknowledgement must repeat. */
  datatype Identity = Identity(action: Command, generation: Generation, request: RequestId)

  /** A reader thread: none yet, reading, done reading, and after it measured the process tree. */
  datatype Reader = NoReader | Reading | Leaving | Reaped(stopped: bool) | Gone

  datatype Worker = Worker(
    session: SessionId,
    reader: Reader,
    pending: Option<Identity>,
    checkpointed: bool,
    stopRequested: bool,
    confirmed: bool,
    retry: bool,
    rollback: Option<bool>)

  datatype QueueEntry = QueuedLaunch(rollback: bool) | QueuedInput

  datatype Frame =
    | Diagnostic
    | Progress
    | StatusRunning(capacityOwned: bool)
    | InputRequest
    | Checkpoint(identity: Identity, evidenceMatches: bool)
    | CheckpointFailure(identity: Identity)
    | Termination(identity: Identity)
    | Completion(exitCode: int, unfinished: bool)
    | Failure

  /** What happened, in order. */
  datatype Event =
    | Launched(session: SessionId, generation: Generation)
    | Confirmed(generation: Generation)
    | Released(session: SessionId)
    | PauseSent(generation: Generation, request: RequestId)
    | CheckpointAccepted(generation: Generation, identity: Identity, evidenceMatches: bool)
    | PausedBy(session: SessionId, generation: Generation)

  /** A termination waiting for its acknowledgement, outside the lock. */
  datatype Stopping = Stopping(session: SessionId, generation: Generation, target: Status)

  datatype Machine = Machine(
    status: map<SessionId, Status>,
    running: map<SessionId, Generation>,
    queued: map<SessionId, QueueEntry>,
    leases: set<SessionId>,
    workers: map<Generation, Worker>,
    stopping: map<RequestId, Stopping>,
    nextGeneration: Generation,
    history: seq<Event>)

  // ---------------------------------------------------------------------------------------------
  // Small updates

  function Log(m: Machine, e: Event): Machine {
    m.(history := m.history + [e])
  }

  function WithStatus(m: Machine, sid: SessionId, s: Status): Machine {
    m.(status := m.status[sid := s])
  }

  function WithWorker(m: Machine, g: Generation, w: Worker): Machine {
    m.(workers := m.workers[g := w])
  }

  /** The worker that currently owns the session's slot. */
  predicate Owns(m: Machine, g: Generation) {
    g in m.workers && m.workers[g].session in m.running && m.running[m.workers[g].session] == g
  }

  /** What a termination reported is recorded: stopped, or to be retried. */
  function Record(m: Machine, g: Generation, stopped: bool): Machine
    requires g in m.workers
  {
    var n := WithWorker(m, g, m.workers[g].(confirmed := stopped, retry := !stopped));
    if stopped then Log(n, Confirmed(g)) else n
  }

  function Drop(m: Machine, sid: SessionId): Machine {
    m.(running := m.running - {sid})
  }

  function Dequeue(m: Machine, sid: SessionId): Machine {
    m.(queued := m.queued - {sid})
  }

  function Release(m: Machine, sid: SessionId): Machine {
    if sid in m.leases then Log(m.(leases := m.leases - {sid}), Released(sid)) else m
  }

  // ---------------------------------------------------------------------------------------------
  // Launching

  datatype LaunchAnswer = NoProcess(persisted: bool) | SetupFailed(stopped: bool) | Started

  /** A session whose worker never ran is failed, or forgotten when it was new. */
  function FinalizeLaunchFailure(m: Machine, sid: SessionId, rollback: bool): Machine {
    if rollback then
      var n := Release(m, sid);
      n.(status := n.status - {sid})
    else
      Release(WithStatus(m, sid, Failed), sid)
  }

  function Spawn(m: Machine, sid: SessionId): Machine {
    var g := m.nextGeneration;
    var worker := Worker(sid, NoReader, None, false, false, false, false, None);
    Log(m.(running := m.running[sid := g], workers := m.workers[g := worker], nextGeneration := g + 1), Launched(sid, g))
  }

  /** The setup of a launched worker failed: its tree is terminated, now or by the retries. */
  function AbandonSetup(m: Machine, sid: SessionId, g: Generation, rollback: bool, stopped: bool): Machine
    requires g in m.workers
  {
    var n := Record(m, g, stopped);
    if stopped then FinalizeLaunchFailure(Drop(n, sid), sid, rollback)
    else WithStatus(WithWorker(n, g, n.workers[g].(stopRequested := true, rollback := Some(rollback))), sid, Interrupted)
  }

  function Launch(m: Machine, sid: SessionId, rollback: bool, answer: LaunchAnswer): Machine {
    match answer
    case NoProcess(persisted) =>
      var failed := WithStatus(m, sid, Failed);
      if persisted then Release(failed, sid) else failed
    case SetupFailed(stopped) =>
      AbandonSetup(Spawn(WithStatus(m, sid, Running), sid), sid, m.nextGeneration, rollback, stopped)
    case Started =>
      var g := m.nextGeneration;
      var n := Spawn(WithStatus(m, sid, Running), sid);
      WithWorker(n, g, n.workers[g].(reader := Reading))
  }

  /** Launches at once when capacity is granted, and queues otherwise. */
  function ScheduleSession(m: Machine, sid: SessionId, rollback: bool, granted: bool, answer: LaunchAnswer): Machine {
    if granted then Launch(m, sid, rollback, answer)
    else WithStatus(m, sid, Queued).(queued := m.queued[sid := QueuedLaunch(rollback)])
  }

  function StartSession(m: Machine, sid: SessionId, claimed: bool, granted: bool, answer: LaunchAnswer): Machine {
    if sid in m.status || !claimed then m
    else ScheduleSession(m.(leases := m.leases + {sid}), sid, true, granted, answer)
  }

  /** Whether the session's lease could be taken and its durable state recovered. */
  datatype ResumeAnswer = Unavailable | Unrecoverable | Acquired

  function ResumeSession(m: Machine, sid: SessionId, acquire: ResumeAnswer, granted: bool, answer: LaunchAnswer): Machine {
    if sid in m.running || sid !in m.status || acquire.Unavailable? then m
    else if acquire.Unrecoverable? then Release(m.(leases := m.leases + {sid}), sid)
    else ScheduleSession(m.(leases := m.leases + {sid}), sid, false, granted, answer)
  }

  // ---------------------------------------------------------------------------------------------
  // Failing, pausing and stopping

  function FailSession(m: Machine, g: Generation, stopped: bool): Machine {
    if !Owns(m, g) then m else
    var sid := m.workers[g].session;
    if sid !in m.status || m.status[sid].Terminal() then m else
    var n := Record(WithStatus(m, sid, if m.status[sid].Pausing? then Interrupted else Failed), g, stopped);
    if stopped then Drop(n, sid) else n
  }

  function InterruptSession(m: Machine, g: Generation, stopped: bool): Machine {
    if !Owns(m, g) then m else
    var sid := m.workers[g].session;
    if sid !in m.status || m.status[sid].Terminal() then m else
    var n := Record(WithStatus(m, sid, Interrupted), g, stopped);
    if stopped then Drop(n, sid) else n
  }

  function PauseSession(m: Machine, sid: SessionId, request: RequestId, written: bool, stopped: bool): Machine {
    if sid !in m.status || m.status[sid].Pausing? || m.status[sid].Paused? || m.status[sid].Terminal() then m
    else if sid !in m.running || m.running[sid] !in m.workers then
      if sid !in m.queued then m
      else Release(WithStatus(Dequeue(m, sid), sid, Paused), sid)
    else
      var g := m.running[sid];
      var asked := WithWorker(m, g, m.workers[g].(pending := Some(Identity(Pause, g, request))));
      var n := Log(WithStatus(Dequeue(asked, sid), sid, Pausing), PauseSent(g, request));
      if written then n else FailSession(n, g, stopped)
  }

  /** The end of a stop: the slot and the lease go only once the tree is confirmed stopped. */
  function FinishStop(m: Machine, sid: SessionId, target: Status): Machine {
    Release(WithStatus(Drop(m, sid), sid, target), sid)
  }

  function TerminateSession(
    m: Machine, sid: SessionId, command: Command, target: Status, alive: bool, request: RequestId, stopped: bool): Machine
  {
    if sid !in m.status || m.status[sid].Terminal() then m
    else if sid !in m.running || m.running[sid] !in m.workers then StopIdle(m, sid, command, target)
    else
      var g := m.running[sid];
      StopWorker(Dequeue(m, sid), sid, g, Identity(command, g, request), target, alive, stopped)
  }

  /** Without a worker there is at most a queue entry to take back. */
  function StopIdle(m: Machine, sid: SessionId, command: Command, target: Status): Machine
    requires sid in m.status
  {
    if sid in m.queued then FinishStop(Dequeue(m, sid), sid, target)
    else if command.ForceStop? && m.status[sid].Interrupted? then m
    else if m.status[sid].Paused? || m.status[sid].Interrupted? then Release(WithStatus(m, sid, Cancelled), sid)
    else m
  }

  /** A live worker is told to stop and waited for; a dead one's tree is terminated at once. */
  function StopWorker(
    m: Machine, sid: SessionId, g: Generation, identity: Identity, target: Status, alive: bool, stopped: bool): Machine
    requires g in m.workers
  {
    if alive then
      WithWorker(m, g, m.workers[g].(stopRequested := true, pending := Some(identity)))
        .(stopping := m.stopping[identity.request := Stopping(sid, g, target)])
    else if m.workers[g].confirmed then FinishStop(m, sid, target)
    else if stopped then FinishStop(Record(m, g, true), sid, target)
    else WithStatus(Record(m, g, false), sid, Interrupted)
  }

  /** The acknowledgement came, or the wait for it ended: the tree is terminated. */
  function EndTermination(m: Machine, request: RequestId, stopped: bool): Machine {
    if request !in m.stopping || m.stopping[request].generation !in m.workers then m else
    var stop := m.stopping[request];
    var n := Record(m.(stopping := m.stopping - {request}), stop.generation, stopped);
    if stop.session !in m.status then (if stopped then Drop(n, stop.session) else n)
    else if stopped then FinishStop(n, stop.session, stop.target)
    else WithStatus(n, stop.session, Interrupted)
  }

  function ProvideInput(m: Machine, sid: SessionId): Machine {
    if sid in m.status && m.status[sid].WaitingForInput? && sid in m.running then
      WithStatus(m, sid, Queued).(queued := m.queued[sid := QueuedInput])
    else m
  }

  // ---------------------------------------------------------------------------------------------
  // Reader threads

  /** Frames the reader does not read past. */
  predicate EndsReading(f: Frame) {
    f.Checkpoint? || f.CheckpointFailure? || f.Completion? || f.Failure?
  }

  predicate Acknowledges(command: Command, f: Frame) {
    if command.Pause? then f.Checkpoint? || f.CheckpointFailure? else f.Termination?
  }

  function LeaveReading(m: Machine, g: Generation): Machine
    requires g in m.workers
  {
    WithWorker(m, g, m.workers[g].(reader := Leaving))
  }

  /** A frame the current worker may send now, applied to its session. */
  function Accept(m: Machine, g: Generation, f: Frame, stopped: bool): Machine
    requires Owns(m, g) && m.workers[g].session in m.status
  {
    var w := m.workers[g];
    var sid := w.session;
    match f
    case Diagnostic => m
    case Progress => m
    case StatusRunning(capacityOwned) => if capacityOwned then WithStatus(m, sid, Running) else m
    case InputRequest => WithStatus(m, sid, WaitingForInput)
    case Checkpoint(identity, evidence) =>
      if !m.status[sid].Pausing? || !evidence then FailSession(m, g, stopped)
      else Log(WithWorker(m, g, w.(checkpointed := true)), CheckpointAccepted(g, identity, evidence))
    case CheckpointFailure(_) =>
      if !m.status[sid].Pausing? then FailSession(m, g, stopped) else WithStatus(m, sid, Interrupted)
    case Termination(identity) =>
      if w.pending != Some(identity) then FailSession(m, g, stopped) else m
    case Completion(exitCode, unfinished) =>
      var outcome := if exitCode != 0 then Failed else if unfinished then Ready else Completed;
      WithWorker(WithStatus(m, sid, outcome), g, w.(stopRequested := true))
    case Failure =>
      WithWorker(WithStatus(m, sid, Failed), g, w.(stopRequested := true))
  }

  /** A mismatched acknowledgement interrupts a pause; it never completes one. */
  function Mismatch(m: Machine, g: Generation): Machine
    requires g in m.workers && m.workers[g].pending.Some?
  {
    if m.workers[g].pending.value.action.Pause? then
      WithStatus(WithWorker(m, g, m.workers[g].(stopRequested := true)), m.workers[g].session, Interrupted)
    else m
  }

  function ApplyFrame(m: Machine, g: Generation, f: Frame, stopped: bool): Machine
    requires Owns(m, g) && m.workers[g].session in m.status
  {
    var pending := m.workers[g].pending;
    if pending.None? then Accept(m, g, f, stopped)
    else if Acknowledges(pending.value.action, f) then
      if f.identity == pending.value && pending.value.generation == g then Accept(m, g, f, stopped) else Mismatch(m, g)
    else if f.Diagnostic? then Accept(m, g, f, stopped)
    else m
  }

  /** One frame read; a protocol error fails the session. Retired readers change nothing but themselves. */
  function ReadFrame(m: Machine, g: Generation, f: Frame, stopped: bool): Machine {
    if g !in m.workers || !m.workers[g].reader.Reading? then m
    else if !Owns(m, g) || m.workers[g].session !in m.status || m.status[m.workers[g].session].Terminal() then
      LeaveReading(m, g)
    else
      var n := ApplyFrame(m, g, f, stopped);
      if EndsReading(f) || (f.Termination? && m.workers[g].pending.None?) then LeaveReading(n, g) else n
  }

  /** The stream broke or carried something that is not a frame. */
  function ReadError(m: Machine, g: Generation, stopped: bool): Machine {
    if g !in m.workers || !m.workers[g].reader.Reading? then m
    else LeaveReading(FailSession(m, g, stopped), g)
  }

  function ReadEnd(m: Machine, g: Generation, stopped: bool): Machine {
    if g !in m.workers || !m.workers[g].reader.Reading? then m else
    var sid := m.workers[g].session;
    if Owns(m, g) && sid in m.status && !m.status[sid].Pausing? && !m.status[sid].Interrupted?
       && !m.workers[g].stopRequested
    then LeaveReading(InterruptSession(m, g, stopped), g)
    else LeaveReading(m, g)
  }

  /** The leaving reader measures the process tree before it takes the lock again. */
  function ReapWorker(m: Machine, g: Generation, stopped: bool): Machine {
    if g !in m.workers || !m.workers[g].reader.Leaving? then m else
    var n := Record(m, g, stopped);
    WithWorker(n, g, n.workers[g].(reader := Reaped(stopped)))
  }

  /** What the reader's end does to the slot its worker owns: a pause that completed, or a worker that is gone. */
  function LeaveSlot(m: Machine, g: Generation, stopped: bool): Machine
    requires Owns(m, g) && m.workers[g].session in m.status
  {
    var w, sid := m.workers[g], m.workers[g].session;
    if w.checkpointed then
      if stopped then Log(WithStatus(Drop(Record(m, g, true), sid), sid, Paused), PausedBy(sid, g))
      else WithStatus(Record(m, g, false), sid, Interrupted)
    else if m.status[sid].Terminal() || m.status[sid].Interrupted? || w.stopRequested then
      if stopped then Drop(m, sid) else Record(m, g, false)
    else m
  }

  /** The last critical section of a reader: the slot, and the lease. */
  function FinishReader(m: Machine, g: Generation): Machine {
    if g !in m.workers || !m.workers[g].reader.Reaped? then m else
    var w, sid := m.workers[g], m.workers[g].session;
    var left := WithWorker(m, g, w.(reader := Gone));
    if sid !in m.status then left else
    var n := if Owns(m, g) then LeaveSlot(left, g, w.reader.stopped) else left;
    if sid !in n.running && n.workers[g].confirmed
       && !n.status[sid].Running? && !n.status[sid].Pausing? && !n.status[sid].Queued?
    then Release(n, sid) else n
  }

  // ---------------------------------------------------------------------------------------------
  // The scheduler thread

  function RetryCleanup(m: Machine, sid: SessionId, stopped: bool): Machine {
    if sid !in m.running || m.running[sid] !in m.workers || sid !in m.status then m else
    var g, w := m.running[sid], m.workers[m.running[sid]];
    if w.confirmed || !w.retry || !(m.status[sid].Terminal() || m.status[sid].Interrupted?) then m else
    var n := Record(m, g, stopped);
    if !stopped then n
    else if w.rollback.Some? then FinalizeLaunchFailure(Drop(n, sid), sid, w.rollback.value)
    else Release(Drop(n, sid), sid)
  }

  datatype CapacityAnswer = RequestFailed | NotGranted | Granted

  function RunQueued(
    m: Machine, sid: SessionId, capacity: CapacityAnswer, answer: LaunchAnswer, written: bool, stopped: bool): Machine
  {
    if sid !in m.queued || capacity.NotGranted? then m else
    var n := Dequeue(m, sid);
    if capacity.RequestFailed? then WithStatus(n, sid, Failed)
    else if m.queued[sid].QueuedLaunch? then Launch(n, sid, m.queued[sid].rollback, answer)
    else if sid !in m.running then WithStatus(n, sid, Failed)
    else if written then WithStatus(n, sid, Running)
    else FailSession(n, m.running[sid], stopped)
  }
}
