/** The diagnostic writer as a state machine: one step for every region that runs under its mutex.
    Producers and the single worker interleave freely; `history` records what has happened. */
module DiagnosticWriterModel {
  import opened Basics

  const LOG_CAPACITY: nat := 4 * 1024 * 1024
  const BARRIER_CAPACITY: nat := 8

  datatype LogRecord = LogRecord(source: string, text: seq<bv8>, flush: bool, appendPath: string)

  datatype QueuedLog = QueuedLog(sequence: nat, bytes: nat, record: LogRecord)

  /** `make` names the factory that builds the status object. */
  datatype Status = Status(version: nat, path: string, make: int)

  datatype Barrier = Barrier(logSequence: nat, statusVersion: nat, work: int)

  datatype Worker =
    | Idle
    | WritingLog(log: QueuedLog)
    | WritingStatus(status: Status)
    | RunningBarrier(barrier: Barrier, integrity: bool)
    | Exited

  datatype Item =
    | PickedLog(statusWaiting: bool)
    | PickedStatus(logWaiting: bool)
    | StartedBarrier(barrier: Barrier)
    | RanLog(sequence: nat, record: LogRecord, ok: bool)
    | RanStatus(version: nat, path: string, make: int, ok: bool)
    | FinishedBarrier(barrier: Barrier, ok: bool, reported: bool)
    | DroppedLog
    | LostOutside

  datatype State = State(
    logs: seq<QueuedLog>,
    pending: Option<Status>,
    barriers: seq<Barrier>,
    stopping: bool,
    logBytes: int, logPeak: int,
    acceptedLogs: nat, completedLogs: nat, droppedLogs: nat, droppedBytes: nat,
    submittedVersion: nat, completedVersion: nat, persistedVersion: nat, writingVersion: nat,
    coalesced: nat, failures: nat,
    worker: Worker, preferLog: bool,
    history: seq<Item>)

  const INITIAL := State([], None, [], false, 0, 0, 0, 0, 0, 0, 0, 0, 0, 0, 0, 0, Idle, false, [])

  /** `header` is the fixed size of a queued record. */
  function Cost(r: LogRecord, header: nat): nat {
    header + |r.text| + (|r.source| + |r.appendPath|) * 2
  }

  // ---- Producers ----

  function PostLog(s: State, r: LogRecord, header: nat): State {
    var bytes := Cost(r, header);
    if s.stopping || s.logBytes + bytes > LOG_CAPACITY then
      s.(droppedLogs := s.droppedLogs + 1, droppedBytes := s.droppedBytes + bytes, history := s.history + [DroppedLog])
    else
      s.(logBytes := s.logBytes + bytes,
         logPeak := Max(s.logPeak, s.logBytes + bytes),
         acceptedLogs := s.acceptedLogs + 1,
         logs := s.logs + [QueuedLog(s.acceptedLogs + 1, bytes, r)])
  }

  function SubmitStatus(s: State, path: string, make: int): State {
    if s.stopping then s
    else
      s.(submittedVersion := s.submittedVersion + 1,
         coalesced := s.coalesced + (if s.pending.Some? then 1 else 0),
         pending := Some(Status(s.submittedVersion + 1, path, make)))
  }

  function AfterPending(s: State, work: int): State {
    if s.stopping || |s.barriers| >= BARRIER_CAPACITY then s
    else s.(barriers := s.barriers + [Barrier(s.acceptedLogs, s.submittedVersion, work)])
  }

  function Stop(s: State): State { s.(stopping := true) }

  function RecordExternalLoss(s: State): State {
    s.(failures := s.failures + 1, history := s.history + [LostOutside])
  }

  // ---- The worker ----

  predicate Awake(s: State) {
    s.stopping || s.logs != [] || s.pending.Some? || s.barriers != []
  }

  predicate BarrierReady(s: State) {
    && s.barriers != []
    && s.completedLogs >= s.barriers[0].logSequence
    && s.completedVersion >= s.barriers[0].statusVersion
  }

  /** What a woken worker takes. It stays idle, and waits again at once, if nothing is for it to do. */
  function Pick(s: State): State {
    if !s.worker.Idle? || !Awake(s) then s
    else if BarrierReady(s) then
      s.(barriers := s.barriers[1..],
         worker := RunningBarrier(s.barriers[0], s.failures == 0 && s.droppedLogs == 0),
         history := s.history + [StartedBarrier(s.barriers[0])])
    else if s.pending.Some? && (!s.preferLog || s.logs == []) then
      s.(pending := None, writingVersion := s.pending.value.version, preferLog := true,
         worker := WritingStatus(s.pending.value),
         history := s.history + [PickedStatus(s.logs != [])])
    else if s.logs != [] then
      s.(logs := s.logs[1..], preferLog := false,
         worker := WritingLog(s.logs[0]),
         history := s.history + [PickedLog(s.pending.Some?)])
    else if s.stopping then s.(worker := Exited)
    else s
  }

  /** The job is over; `ok` is what the sink or the barrier's work returned. */
  function Complete(s: State, ok: bool): State {
    var failures := s.failures + (if ok then 0 else 1);
    match s.worker
    case WritingLog(log) =>
      s.(failures := failures, completedLogs := log.sequence,
         logBytes := s.logBytes - log.bytes,
         worker := Idle, history := s.history + [RanLog(log.sequence, log.record, ok)])
    case WritingStatus(status) =>
      s.(failures := failures, completedVersion := status.version, writingVersion := 0,
         persistedVersion := if ok then status.version else s.persistedVersion,
         worker := Idle, history := s.history + [RanStatus(status.version, status.path, status.make, ok)])
    case RunningBarrier(barrier, integrity) =>
      s.(failures := failures, worker := Idle, history := s.history + [FinishedBarrier(barrier, ok, ok && integrity)])
    case Idle => s
    case Exited => s
  }

  // ---- Runs ----

  datatype Action =
    | Post(record: LogRecord, header: nat)
    | Submit(path: string, make: int)
    | After(work: int)
    | RequestStop
    | ExternalLoss
    | WorkerPick
    | WorkerComplete(ok: bool)

  function Step(s: State, a: Action): State {
    match a
    case Post(r, header) => PostLog(s, r, header)
    case Submit(path, make) => SubmitStatus(s, path, make)
    case After(work) => AfterPending(s, work)
    case RequestStop => Stop(s)
    case ExternalLoss => RecordExternalLoss(s)
    case WorkerPick => Pick(s)
    case WorkerComplete(ok) => Complete(s, ok)
  }

  function Run(s: State, actions: seq<Action>): State
    decreases |actions|
  {
    if actions == [] then s else Run(Step(s, actions[0]), actions[1..])
  }
}
