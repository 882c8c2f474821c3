/** The navigation thumbnail worker: one submitter, one worker, one replaceable pending image, and a
    generation that makes old work void. Every step is one region under the mutex, or one thing the
    worker does between two of them. */
module ThumbnailWorkerModel {
  import opened Basics

  const SPACING: nat := 1000   // milliseconds between two frames of one generation

  datatype Job = Job(generation: nat, revision: nat, sender: int)

  datatype Worker =
    | Waiting
    | Picked(job: Job)
    | Encoding(job: Job)
    | Sending(job: Job)
    | Finishing(job: Job, ok: bool, sent: bool)
    | Exited

  datatype Counters = Counters(submitted: nat, replaced: nat, sent: nat, failed: nat, discarded: nat, active: bool)

  /** A frame claimed: when, in which generation, and for which sender. */
  datatype Claim = Claim(generation: nat, now: nat, sender: int)

  datatype Delivery = Delivery(sender: int, revision: nat)

  /** `preparing` is the frame the submitter is scaling down outside the mutex; `claims` and
      `deliveries` record every frame claimed and every packet handed to a sender. */
  datatype State = State(
    running: bool, generation: nat, revision: nat, lastPrepare: Option<nat>, pending: Option<Job>, sender: Option<int>,
    counters: Counters, preparing: Option<Job>, worker: Worker, claims: seq<Claim>, deliveries: seq<Delivery>)

  function NewState(enabled: bool): State {
    State(enabled, 1, 0, None, None, None, Counters(0, 0, 0, 0, 0, false), None,
          if enabled then Waiting else Exited, [], [])
  }

  predicate Due(s: State, now: nat) {
    s.running && s.sender.Some? && (s.lastPrepare.None? || now >= s.lastPrepare.value + SPACING)
  }

  predicate Current(s: State, job: Job) { s.running && s.generation == job.generation }

  function Discard(c: Counters): Counters { c.(discarded := c.discarded + 1) }

  function Invalidated(s: State): State {
    s.(generation := s.generation + 1, lastPrepare := None, pending := None,
       counters := if s.pending.Some? then Discard(s.counters) else s.counters)
  }

  function SetSender(s: State, sender: Option<int>): State { Invalidated(s).(sender := sender) }

  function Stopped(s: State): State { Invalidated(s.(running := false)).(sender := None) }

  /** The first region of a submission: claims a frame if one is due. */
  function ClaimFrame(s: State, now: nat): State {
    if s.preparing.Some? || !Due(s, now) then s
    else
      var job := Job(s.generation, s.revision + 1, s.sender.value);
      s.(lastPrepare := Some(now), revision := s.revision + 1, preparing := Some(job),
         claims := s.claims + [Claim(s.generation, now, s.sender.value)])
  }

  /** The second region of a submission: the prepared image becomes the pending one. */
  function FinishPreparing(s: State, prepared: bool): State {
    if s.preparing.None? then s
    else
      var job := s.preparing.value;
      var c := s.counters;
      if !Current(s, job) then s.(preparing := None, counters := Discard(c))
      else if !prepared then s.(preparing := None, counters := c.(failed := c.failed + 1))
      else
        s.(preparing := None, pending := Some(job),
           counters := c.(submitted := c.submitted + 1, replaced := c.replaced + if s.pending.Some? then 1 else 0))
  }

  /** What the encoder and the sender do: the encoding works, and the sender takes the packet or
      throws. */
  datatype Outcome = Outcome(encoded: bool, taken: bool, thrown: bool)

  function WorkerStep(s: State, o: Outcome): State {
    match s.worker
    case Waiting =>
      if !s.running then s.(worker := Exited)
      else if s.pending.Some? then s.(worker := Picked(s.pending.value), pending := None, counters := s.counters.(active := true))
      else s
    case Picked(job) => s.(worker := if Current(s, job) then Encoding(job) else Finishing(job, false, false))
    case Encoding(job) => s.(worker := if o.encoded && Current(s, job) then Sending(job) else Finishing(job, o.encoded, false))
    case Sending(job) =>
      s.(worker := Finishing(job, !o.thrown, o.taken && !o.thrown), deliveries := s.deliveries + [Delivery(job.sender, job.revision)])
    case Finishing(job, ok, sent) =>
      var c := s.counters.(active := false);
      s.(worker := Waiting,
         counters := if !Current(s, job) then Discard(c)
                     else if ok && sent then c.(sent := c.sent + 1)
                     else c.(failed := c.failed + 1))
    case Exited => s
  }

  datatype Action =
    | Install(sender: Option<int>)
    | Invalidate
    | Stop
    | ClaimAt(now: nat)
    | Prepared(ok: bool)
    | Work(outcome: Outcome)

  function Next(s: State, a: Action): State {
    match a
    case Install(sender) => SetSender(s, sender)
    case Invalidate => Invalidated(s)
    case Stop => Stopped(s)
    case ClaimAt(now) => ClaimFrame(s, now)
    case Prepared(ok) => FinishPreparing(s, ok)
    case Work(outcome) => WorkerStep(s, outcome)
  }

  function Run(s: State, actions: seq<Action>): State
    decreases |actions|
  {
    if actions == [] then s else Run(Next(s, actions[0]), actions[1..])
  }
}
