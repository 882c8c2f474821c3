/** The thumbnail worker as an object. Each method is one region under the mutex, or what the worker
    does between two of them, and takes the model's step; other threads may come in between. Each keeps
    the invariants proved of the model. */
module ThumbnailWorker {
  import opened Basics
  import opened ThumbnailWorkerModel
  import opened Proofs = ThumbnailWorkerProofs

  class NavigationThumbnailWorker {
    var running: bool
    var generation: nat
    var revision: nat
    var lastPrepare: Option<nat>
    var pending: Option<Job>
    var sender: Option<int>
    var submitted: nat
    var replaced: nat
    var sent: nat
    var failed: nat
    var discarded: nat
    var active: bool
    ghost var preparing: Option<Job>
    ghost var worker: Worker
    ghost var claims: seq<Claim>
    ghost var deliveries: seq<Delivery>

    ghost function Value(): State
      reads this
    {
      State(running, generation, revision, lastPrepare, pending, sender,
            Counters(submitted, replaced, sent, failed, discarded, active), preparing, worker, claims, deliveries)
    }

    constructor (enabled: bool)
      ensures Value() == NewState(enabled)
      ensures Inv(Value())
    {
      hide Inv;
      running := enabled;
      generation := 1;
      revision := 0;
      lastPrepare := None;
      pending := None;
      sender := None;
      submitted := 0;
      replaced := 0;
      sent := 0;
      failed := 0;
      discarded := 0;
      active := false;
      preparing := None;
      worker := if enabled then Waiting else Exited;
      claims := [];
      deliveries := [];
      new;
      NewIsInv(enabled);
    }

    method InvalidateLocked()
      modifies this
      ensures Value() == Invalidated(old(Value()))
      ensures old(Inv(Value())) ==> Inv(Value())
    {
      hide Inv;
      if Inv(Value()) { NextKeepsInv(Value(), Invalidate); }
      generation := generation + 1;
      lastPrepare := None;
      if pending.Some? {
        discarded := discarded + 1;
        pending := None;
      }
    }

    method InstallSender(newSender: Option<int>)
      modifies this
      ensures Value() == SetSender(old(Value()), newSender)
      ensures old(Inv(Value())) ==> Inv(Value())
    {
      hide Inv;
      if Inv(Value()) { NextKeepsInv(Value(), Install(newSender)); }
      InvalidateLocked();
      sender := newSender;
    }

    method StopWorker()
      modifies this
      ensures Value() == Stopped(old(Value()))
      ensures old(Inv(Value())) ==> Inv(Value())
    {
      hide Inv;
      if Inv(Value()) { NextKeepsInv(Value(), Stop); }
      running := false;
      InvalidateLocked();
      sender := None;
    }

    /** The first region of a submission. There is one submitter, so none is being prepared. */
    method BeginSubmit(now: nat) returns (job: Option<Job>)
      requires preparing.None?
      modifies this
      ensures Value() == ClaimFrame(old(Value()), now)
      ensures job == preparing
      ensures old(Inv(Value())) ==> Inv(Value())
    {
      hide Inv;
      if Inv(Value()) { NextKeepsInv(Value(), ClaimAt(now)); }
      if !(running && sender.Some? && (lastPrepare.None? || now >= lastPrepare.value + SPACING)) { return None; }
      lastPrepare := Some(now);
      revision := revision + 1;
      job := Some(Job(generation, revision, sender.value));
      preparing := job;
      claims := claims + [Claim(generation, now, sender.value)];
    }

    /** The second region of a submission. */
    method EndSubmit(job: Job, prepared: bool)
      requires preparing == Some(job)
      modifies this
      ensures Value() == FinishPreparing(old(Value()), prepared)
      ensures old(Inv(Value())) ==> Inv(Value())
    {
      hide Inv;
      if Inv(Value()) { NextKeepsInv(Value(), Prepared(prepared)); }
      preparing := None;
      if !running || generation != job.generation {
        discarded := discarded + 1;
        return;
      }
      if !prepared {
        failed := failed + 1;
        return;
      }
      if pending.Some? { replaced := replaced + 1; }
      submitted := submitted + 1;
      pending := Some(job);
    }

    /** The worker's wait, once it is over: a job, or the end. */
    method Pick(ghost o: Outcome) returns (job: Option<Job>)
      requires worker.Waiting? && (!running || pending.Some?)
      modifies this
      ensures Value() == WorkerStep(old(Value()), o)
      ensures job == if old(running) then old(pending) else None
      ensures old(Inv(Value())) ==> Inv(Value())
    {
      hide Inv;
      if Inv(Value()) { NextKeepsInv(Value(), Work(o)); }
      if !running {
        worker := Exited;
        return None;
      }
      job := pending;
      pending := None;
      active := true;
      worker := Picked(job.value);
    }

    method IsCurrent(job: Job) returns (current: bool)
      ensures current == Current(Value(), job)
    {
      current := running && generation == job.generation;
    }

    /** The worker's first check, and its decision to encode. */
    method BeginEncoding(job: Job, ghost o: Outcome) returns (goesOn: bool)
      requires worker == Picked(job)
      modifies this
      ensures Value() == WorkerStep(old(Value()), o)
      ensures goesOn == worker.Encoding? && worker == if goesOn then Encoding(job) else Finishing(job, false, false)
      ensures old(Inv(Value())) ==> Inv(Value())
    {
      hide Inv;
      if Inv(Value()) { NextKeepsInv(Value(), Work(o)); }
      goesOn := IsCurrent(job);
      worker := if goesOn then Encoding(job) else Finishing(job, false, false);
    }

    /** Encoded, or not: the worker's second check, and its decision to send. */
    method BeginSending(job: Job, o: Outcome) returns (ok: bool, goesOn: bool)
      requires worker == Encoding(job)
      modifies this
      ensures Value() == WorkerStep(old(Value()), o)
      ensures goesOn == worker.Sending? && worker == if goesOn then Sending(job) else Finishing(job, ok, false)
      ensures old(Inv(Value())) ==> Inv(Value())
    {
      hide Inv;
      if Inv(Value()) { NextKeepsInv(Value(), Work(o)); }
      ok := o.encoded;
      var now := IsCurrent(job);
      goesOn := ok && now;
      worker := if goesOn then Sending(job) else Finishing(job, ok, false);
    }

    /** Sending, outside the mutex. */
    method HandOver(job: Job, o: Outcome) returns (ok: bool, handed: bool)
      requires worker == Sending(job)
      modifies this
      ensures Value() == WorkerStep(old(Value()), o)
      ensures worker == Finishing(job, ok, handed)
      ensures old(Inv(Value())) ==> Inv(Value())
    {
      hide Inv;
      if Inv(Value()) { NextKeepsInv(Value(), Work(o)); }
      ok := !o.thrown;
      handed := o.taken && !o.thrown;
      deliveries := deliveries + [Delivery(job.sender, job.revision)];
      worker := Finishing(job, ok, handed);
    }

    method Account(job: Job, ok: bool, handed: bool, ghost o: Outcome)
      requires worker == Finishing(job, ok, handed)
      modifies this
      ensures Value() == WorkerStep(old(Value()), o)
      ensures old(Inv(Value())) ==> Inv(Value())
    {
      hide Inv;
      if Inv(Value()) { NextKeepsInv(Value(), Work(o)); }
      worker := Waiting;
      active := false;
      if generation != job.generation || !running {
        discarded := discarded + 1;
      } else if ok && handed {
        sent := sent + 1;
      } else {
        failed := failed + 1;
      }
    }
  }
}
