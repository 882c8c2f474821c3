/** The diagnostic writer as an object. Each method is one region that runs under the mutex, and does
    exactly the model's step, which keeps every invariant; the theorems about runs of steps are then
    theorems about it. */
module DiagnosticWriter {
  import opened Basics
  import opened Model = DiagnosticWriterModel
  import Proofs = DiagnosticWriterProofs

  class GuiDiagnosticWriter {
    const header: nat
    var logs: seq<QueuedLog>
    var pending: Option<Status>
    var barriers: seq<Barrier>
    var stopping: bool
    var logBytes: int
    var logPeak: int
    var acceptedLogs: nat
    var completedLogs: nat
    var droppedLogs: nat
    var droppedBytes: nat
    var submittedVersion: nat
    var completedVersion: nat
    var persistedVersion: nat
    var writingVersion: nat
    var coalesced: nat
    var failures: nat
    var worker: Worker
    var preferLog: bool
    ghost var history: seq<Item>

    ghost function Value(): State
      reads this
    {
      State(logs, pending, barriers, stopping, logBytes, logPeak, acceptedLogs, completedLogs, droppedLogs, droppedBytes,
            submittedVersion, completedVersion, persistedVersion, writingVersion, coalesced, failures,
            worker, preferLog, history)
    }

    constructor (header: nat)
      ensures Value() == INITIAL && this.header == header
    {
      this.header := header;
      logs, pending, barriers, stopping := [], None, [], false;
      logBytes, logPeak, acceptedLogs, completedLogs, droppedLogs, droppedBytes := 0, 0, 0, 0, 0, 0;
      submittedVersion, completedVersion, persistedVersion, writingVersion, coalesced, failures := 0, 0, 0, 0, 0, 0;
      worker, preferLog, history := Idle, false, [];
    }

    method Drop(bytes: nat)
      modifies this
      ensures Value() == old(Value()).(droppedLogs := old(droppedLogs) + 1, droppedBytes := old(droppedBytes) + bytes,
                                       history := old(history) + [DroppedLog])
    {
      droppedLogs := droppedLogs + 1;
      droppedBytes := droppedBytes + bytes;
      history := history + [DroppedLog];
    }

    method Post(record: LogRecord) returns (accepted: bool)
      modifies this
      ensures Value() == PostLog(old(Value()), record, header)
      ensures accepted <==> !old(stopping) && old(logBytes) + Cost(record, header) <= LOG_CAPACITY
      ensures old(Proofs.Inv(Value())) ==> Proofs.Inv(Value())
    {
      hide Proofs.Inv;
      if Proofs.Inv(Value()) { Proofs.StepKeepsInv(Value(), Model.Action.Post(record, header)); }
      var bytes := Cost(record, header);
      if stopping || logBytes + bytes > LOG_CAPACITY {
        Drop(bytes);
        return false;
      }
      logBytes := logBytes + bytes;
      logPeak := Max(logPeak, logBytes);
      acceptedLogs := acceptedLogs + 1;
      logs := logs + [QueuedLog(acceptedLogs, bytes, record)];
      accepted := true;
    }

    /** The version given to the status, or zero when the writer is stopping. */
    method Submit(path: string, make: int) returns (version: nat)
      modifies this
      ensures Value() == SubmitStatus(old(Value()), path, make)
      ensures version == if old(stopping) then 0 else old(submittedVersion) + 1
      ensures old(Proofs.Inv(Value())) ==> Proofs.Inv(Value())
    {
      hide Proofs.Inv;
      if Proofs.Inv(Value()) { Proofs.StepKeepsInv(Value(), Model.Action.Submit(path, make)); }
      if stopping { return 0; }
      submittedVersion := submittedVersion + 1;
      version := submittedVersion;
      if pending.Some? { coalesced := coalesced + 1; }
      pending := Some(Status(version, path, make));
    }

    method After(work: int) returns (accepted: bool)
      modifies this
      ensures Value() == AfterPending(old(Value()), work)
      ensures accepted <==> !old(stopping) && |old(barriers)| < BARRIER_CAPACITY
      ensures old(Proofs.Inv(Value())) ==> Proofs.Inv(Value())
    {
      hide Proofs.Inv;
      if Proofs.Inv(Value()) { Proofs.StepKeepsInv(Value(), Model.Action.After(work)); }
      if stopping || |barriers| >= BARRIER_CAPACITY { return false; }
      barriers := barriers + [Barrier(acceptedLogs, submittedVersion, work)];
      accepted := true;
    }

    method RequestStop()
      modifies this
      ensures Value() == Stop(old(Value()))
      ensures old(Proofs.Inv(Value())) ==> Proofs.Inv(Value())
    {
      hide Proofs.Inv;
      if Proofs.Inv(Value()) { Proofs.StepKeepsInv(Value(), Model.Action.RequestStop); }
      stopping := true;
    }

    method RecordExternalLoss()
      modifies this
      ensures Value() == Model.RecordExternalLoss(old(Value()))
      ensures old(Proofs.Inv(Value())) ==> Proofs.Inv(Value())
    {
      hide Proofs.Inv;
      if Proofs.Inv(Value()) { Proofs.StepKeepsInv(Value(), ExternalLoss); }
      failures := failures + 1;
      history := history + [LostOutside];
    }

    method TakeBarrier()
      requires worker.Idle? && BarrierReady(Value())
      modifies this
      ensures Value() == Pick(old(Value()))
    {
      worker := RunningBarrier(barriers[0], failures == 0 && droppedLogs == 0);
      history := history + [StartedBarrier(barriers[0])];
      barriers := barriers[1..];
    }

    method TakeStatus()
      requires worker.Idle? && !BarrierReady(Value()) && pending.Some? && (!preferLog || logs == [])
      modifies this
      ensures Value() == Pick(old(Value()))
    {
      worker := WritingStatus(pending.value);
      writingVersion := pending.value.version;
      history := history + [PickedStatus(logs != [])];
      pending := None;
      preferLog := true;
    }

    method TakeLog()
      requires worker.Idle? && !BarrierReady(Value()) && !(pending.Some? && (!preferLog || logs == [])) && logs != []
      modifies this
      ensures Value() == Pick(old(Value()))
    {
      worker := WritingLog(logs[0]);
      history := history + [PickedLog(pending.Some?)];
      logs := logs[1..];
      preferLog := false;
    }

    /** The first locked region of the worker loop, once the wait is over. */
    method Take()
      requires worker.Idle? && Awake(Value())
      modifies this
      ensures Value() == Pick(old(Value()))
      ensures old(Proofs.Inv(Value())) ==> Proofs.Inv(Value())
    {
      hide Proofs.Inv;
      if Proofs.Inv(Value()) { Proofs.StepKeepsInv(Value(), WorkerPick); }
      if barriers != [] && completedLogs >= barriers[0].logSequence && completedVersion >= barriers[0].statusVersion {
        TakeBarrier();
      } else if pending.Some? && (!preferLog || logs == []) {
        TakeStatus();
      } else if logs != [] {
        TakeLog();
      } else if stopping {
        worker := Exited;
      }
    }

    method FinishLog(ok: bool)
      requires worker.WritingLog?
      modifies this
      ensures Value() == Complete(old(Value()), ok)
    {
      if !ok { failures := failures + 1; }
      completedLogs := worker.log.sequence;
      logBytes := logBytes - worker.log.bytes;
      history := history + [RanLog(worker.log.sequence, worker.log.record, ok)];
      worker := Idle;
    }

    method FinishStatus(ok: bool)
      requires worker.WritingStatus?
      modifies this
      ensures Value() == Complete(old(Value()), ok)
    {
      if !ok { failures := failures + 1; }
      completedVersion := worker.status.version;
      writingVersion := 0;
      if ok { persistedVersion := worker.status.version; }
      history := history + [RanStatus(worker.status.version, worker.status.path, worker.status.make, ok)];
      worker := Idle;
    }

    method FinishBarrier(ok: bool)
      requires worker.RunningBarrier?
      modifies this
      ensures Value() == Complete(old(Value()), ok)
    {
      if !ok { failures := failures + 1; }
      history := history + [FinishedBarrier(worker.barrier, ok, ok && worker.integrity)];
      worker := Idle;
    }

    /** The second locked region: the job returned `ok`. */
    method Finish(ok: bool)
      requires worker.WritingLog? || worker.WritingStatus? || worker.RunningBarrier?
      modifies this
      ensures Value() == Complete(old(Value()), ok)
      ensures old(Proofs.Inv(Value())) ==> Proofs.Inv(Value())
    {
      hide Proofs.Inv;
      if Proofs.Inv(Value()) { Proofs.StepKeepsInv(Value(), WorkerComplete(ok)); }
      match worker {
        case WritingLog(_) => FinishLog(ok);
        case WritingStatus(_) => FinishStatus(ok);
        case RunningBarrier(_, _) => FinishBarrier(ok);
      }
    }

    /** The destructor's join: the worker loop after the stop request, whatever its jobs return.
        It ends, with nothing left behind. */
    method Join(results: int -> bool)
      requires Proofs.Inv(Value()) && stopping
      modifies this
      ensures worker.Exited? && logs == [] && pending.None? && barriers == []
      ensures completedLogs == old(acceptedLogs) && completedVersion == old(submittedVersion)
    {
      hide Proofs.Inv, Proofs.Remaining, Pick, Complete;
      var i := 0;
      while !worker.Exited?
        invariant Proofs.Inv(Value()) && stopping
        invariant acceptedLogs == old(acceptedLogs) && submittedVersion == old(submittedVersion)
        decreases Proofs.Remaining(Value())
      {
        Proofs.WorkerActsAfterStop(Value(), results(i));
        ghost var before := Value();
        if worker.Idle? {
          Take();
          assert Value() == Proofs.WorkerStep(before, results(i));
        } else {
          Finish(results(i));
          assert Value() == Proofs.WorkerStep(before, results(i));
        }
        i := i + 1;
      }
      Proofs.ExitedIsDrained(Value());
    }
  }
}
