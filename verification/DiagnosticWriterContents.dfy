/** What the diagnostic writer's jobs are given: the records, statuses and works that were accepted,
    whole and in order, over every interleaving. */
module DiagnosticWriterContents {
  import opened Basics
  import opened DiagnosticWriterModel
  import opened Proofs = DiagnosticWriterProofs

  datatype Posted = Posted(record: LogRecord, bytes: nat)

  datatype Submission = Submission(path: string, make: int)

  /** What was accepted since the start, from the calls alone, what was refused, and the
      most bytes that waited. */
  datatype Ledger = Ledger(
    posted: seq<Posted>, submitted: seq<Submission>, works: seq<int>, refused: nat, refusedBytes: nat, peak: nat)

  const NOTHING := Ledger([], [], [], 0, 0, 0)

  /** The size that a record counts for: two bytes a unit of its names, one a byte of its text. */
  function Size(r: LogRecord, header: nat): nat { header + 2 * |r.source| + 2 * |r.appendPath| + |r.text| }

  function Sizes(posted: seq<Posted>): nat
    decreases |posted|
  {
    if posted == [] then 0 else Sizes(posted[..|posted| - 1]) + posted[|posted| - 1].bytes
  }

  /** Before a stop a record is accepted when it fits beside those not yet written, a status always,
      and a work when fewer than eight wait. */
  function Noted(l: Ledger, s: State, a: Action): Ledger {
    match a
    case Post(r, header) =>
      if s.stopping || s.completedLogs > |l.posted|
         || Sizes(l.posted[s.completedLogs..]) + Size(r, header) > 4 * 1024 * 1024 then
        l.(refused := l.refused + 1, refusedBytes := l.refusedBytes + Size(r, header))
      else
        l.(posted := l.posted + [Posted(r, Size(r, header))],
           peak := Max(l.peak, Sizes(l.posted[s.completedLogs..]) + Size(r, header)))
    case Submit(path, make) => if s.stopping then l else l.(submitted := l.submitted + [Submission(path, make)])
    case After(work) => if s.stopping || |s.barriers| >= 8 then l else l.(works := l.works + [work])
    case _ => l
  }

  function LedgerOf(l: Ledger, s: State, actions: seq<Action>): Ledger
    decreases |actions|
  {
    if actions == [] then l else LedgerOf(Noted(l, s, actions[0]), Step(s, actions[0]), actions[1..])
  }

  // ---- What has been run, from the history ----

  function RecordsRun(h: seq<Item>): seq<LogRecord> {
    if h == [] then []
    else RecordsRun(h[..|h| - 1]) + (if h[|h| - 1].RanLog? then [h[|h| - 1].record] else [])
  }

  function WorksStarted(h: seq<Item>): seq<int> {
    if h == [] then []
    else WorksStarted(h[..|h| - 1]) + (if h[|h| - 1].StartedBarrier? then [h[|h| - 1].barrier.work] else [])
  }

  /** The newest status whose writing succeeded, or zero. */
  function Persisted(h: seq<Item>): nat {
    if h == [] then 0
    else if h[|h| - 1].RanStatus? && h[|h| - 1].ok then h[|h| - 1].version
    else Persisted(h[..|h| - 1])
  }

  /** Jobs that failed, and losses reported from outside. */
  function Failures(h: seq<Item>): nat {
    if h == [] then 0
    else Failures(h[..|h| - 1]) + (if h[|h| - 1].DroppedLog? || Clean(h[|h| - 1]) then 0 else 1)
  }

  ghost predicate IsSubmission(l: Ledger, version: nat, path: string, make: int) {
    1 <= version <= |l.submitted| && l.submitted[version - 1] == Submission(path, make)
  }

  // ---- The invariant ----

  /** The log being written, then those queued. */
  function Outstanding(s: State): seq<QueuedLog> { (if s.worker.WritingLog? then [s.worker.log] else []) + s.logs }

  /** The records posted, in order: those run, then those outstanding with their sizes. */
  ghost predicate RecordsIn(run: seq<LogRecord>, outstanding: seq<QueuedLog>, posted: seq<Posted>) {
    && |posted| == |run| + |outstanding|
    && (forall i :: 0 <= i < |run| ==> run[i] == posted[i].record)
    && (forall i :: 0 <= i < |outstanding| ==> posted[|run| + i] == Posted(outstanding[i].record, outstanding[i].bytes))
  }

  ghost predicate RecordsKept(s: State, l: Ledger) {
    && |l.posted| == s.acceptedLogs && |RecordsRun(s.history)| == s.completedLogs
    && RecordsIn(RecordsRun(s.history), Outstanding(s), l.posted)
  }

  /** The status being written and the pending one. */
  function Unwritten(s: State): seq<Status> {
    (if s.worker.WritingStatus? then [s.worker.status] else []) + (if s.pending.Some? then [s.pending.value] else [])
  }

  ghost predicate StatusesIn(h: seq<Item>, unwritten: seq<Status>, l: Ledger) {
    && (forall i :: 0 <= i < |unwritten| ==> IsSubmission(l, unwritten[i].version, unwritten[i].path, unwritten[i].make))
    && (forall i {:trigger h[i]} :: 0 <= i < |h| && h[i].RanStatus? ==> IsSubmission(l, h[i].version, h[i].path, h[i].make))
  }

  ghost predicate StatusesKept(s: State, l: Ledger) {
    |l.submitted| == s.submittedVersion && StatusesIn(s.history, Unwritten(s), l)
  }

  ghost predicate WorksIn(started: seq<int>, waiting: seq<Barrier>, works: seq<int>) {
    && |works| == |started| + |waiting|
    && (forall i :: 0 <= i < |started| ==> started[i] == works[i])
    && (forall i :: 0 <= i < |waiting| ==> waiting[i].work == works[|started| + i])
  }

  ghost predicate WorksKept(s: State, l: Ledger) { WorksIn(WorksStarted(s.history), s.barriers, l.works) }

  ghost predicate CountsKept(s: State, l: Ledger) {
    && s.droppedLogs == l.refused && s.droppedBytes == l.refusedBytes
    && s.persistedVersion == Persisted(s.history) && s.failures == Failures(s.history)
    && s.logPeak == l.peak
  }

  ghost predicate Kept(s: State, l: Ledger) { RecordsKept(s, l) && StatusesKept(s, l) && WorksKept(s, l) && CountsKept(s, l) }

  // ---- Every step keeps it ----

  lemma HistoryGrows(h: seq<Item>, i: Item)
    ensures RecordsRun(h + [i]) == if i.RanLog? then RecordsRun(h) + [i.record] else RecordsRun(h)
    ensures WorksStarted(h + [i]) == if i.StartedBarrier? then WorksStarted(h) + [i.barrier.work] else WorksStarted(h)
    ensures Persisted(h + [i]) == if i.RanStatus? && i.ok then i.version else Persisted(h)
    ensures Failures(h + [i]) == Failures(h) + (if i.DroppedLog? || Clean(i) then 0 else 1)
  {
    assert (h + [i])[..|h|] == h;
    assert RecordsRun(h) + [] == RecordsRun(h) && WorksStarted(h) + [] == WorksStarted(h);
  }

  lemma SizesFront(posted: seq<Posted>)
    requires posted != []
    ensures Sizes(posted) == posted[0].bytes + Sizes(posted[1..])
    decreases |posted|
  {
    var n := |posted|;
    if n > 1 {
      SizesFront(posted[..n - 1]);
      assert posted[..n - 1][1..] == posted[1..][..n - 2];
    } else {
      assert posted[..0] == [] && posted[1..] == [];
    }
  }

  lemma {:induction false} QueuedSizes(logs: seq<QueuedLog>, posted: seq<Posted>)
    requires |logs| == |posted| && forall i :: 0 <= i < |logs| ==> logs[i].bytes == posted[i].bytes
    ensures QueuedBytes(logs) == Sizes(posted)
    decreases |logs|
  {
    if logs != [] {
      SizesFront(posted);
      QueuedSizes(logs[1..], posted[1..]);
    }
  }

  /** What is not yet written takes what the writer has counted. */
  lemma WaitingSizes(s: State, l: Ledger)
    requires LogsConserved(s) && RecordsKept(s, l)
    ensures s.completedLogs <= |l.posted| && Sizes(l.posted[s.completedLogs..]) == s.logBytes
  {
    hide LogsRun, UpTo, RecordsRun, QueuedBytes;
    QueuedSizes(Outstanding(s), l.posted[s.completedLogs..]);
    if s.worker.WritingLog? { QueuedFront(s.worker.log, s.logs); } else { assert [] + s.logs == s.logs; }
  }

  lemma QueuedFront(log: QueuedLog, logs: seq<QueuedLog>)
    ensures QueuedBytes([log] + logs) == log.bytes + QueuedBytes(logs)
  {
    assert ([log] + logs)[1..] == logs;
  }

  lemma PostKeepsContents(s: State, l: Ledger, r: LogRecord, header: nat)
    requires LogsConserved(s) && Kept(s, l)
    ensures Kept(PostLog(s, r, header), Noted(l, s, Post(r, header)))
  {
    hide RecordsRun, WorksStarted, Persisted, Failures, LogsRun, QueuedBytes, Sizes, IsSubmission, RecordsIn, StatusesIn;
    WaitingSizes(s, l);
    HistoryGrows(s.history, DroppedLog);
    StatusesInMore(s.history, Unwritten(s), l, DroppedLog);
    var t, m := PostLog(s, r, header), Noted(l, s, Post(r, header));
    if t.acceptedLogs > s.acceptedLogs {
      var log := t.logs[|s.logs|];
      assert Outstanding(t) == Outstanding(s) + [log];
      RecordsInMore(RecordsRun(s.history), Outstanding(s), l.posted, log);
      SameSubmissions(s.history, Unwritten(s), l, m);
    } else {
      SameSubmissions(t.history, Unwritten(s), l, m);
    }
  }

  lemma RecordsInMore(run: seq<LogRecord>, outstanding: seq<QueuedLog>, posted: seq<Posted>, log: QueuedLog)
    requires RecordsIn(run, outstanding, posted)
    ensures RecordsIn(run, outstanding + [log], posted + [Posted(log.record, log.bytes)])
  {
  }

  lemma StatusesInMore(h: seq<Item>, unwritten: seq<Status>, l: Ledger, i: Item)
    requires StatusesIn(h, unwritten, l) && (i.RanStatus? ==> IsSubmission(l, i.version, i.path, i.make))
    ensures StatusesIn(h + [i], unwritten, l)
  {
    hide IsSubmission;
  }

  lemma SameSubmissions(h: seq<Item>, unwritten: seq<Status>, l: Ledger, m: Ledger)
    requires StatusesIn(h, unwritten, l) && l.submitted <= m.submitted
    ensures StatusesIn(h, unwritten, m)
  {
  }

  lemma PickKeepsRecords(s: State, l: Ledger)
    requires RecordsKept(s, l)
    ensures RecordsKept(Pick(s), l)
  {
    hide RecordsRun, RecordsIn, BarrierReady;
    var t := Pick(s);
    if |t.history| > |s.history| { SameRecords(s.history, t.history[|s.history|]); }
    assert Outstanding(t) == Outstanding(s);
  }

  lemma SameRecords(h: seq<Item>, i: Item)
    ensures !i.RanLog? ==> RecordsRun(h + [i]) == RecordsRun(h)
  {
    hide RecordsRun, WorksStarted, Persisted, Failures, Clean;
    HistoryGrows(h, i);
  }

  lemma PickKeepsStatuses(s: State, l: Ledger)
    requires StatusesKept(s, l)
    ensures StatusesKept(Pick(s), l)
  {
    hide StatusesIn, BarrierReady;
    var t := Pick(s);
    if |t.history| > |s.history| { StatusesInMore(s.history, Unwritten(s), l, t.history[|s.history|]); }
    assert Unwritten(t) == Unwritten(s);
  }

  lemma PickKeepsOthers(s: State, l: Ledger)
    requires WorksKept(s, l) && CountsKept(s, l)
    ensures WorksKept(Pick(s), l) && CountsKept(Pick(s), l)
  {
    hide WorksStarted, Persisted, Failures, WorksIn, RecordsRun;
    var t := Pick(s);
    if |t.history| > |s.history| { HistoryGrows(s.history, t.history[|s.history|]); }
    if s.barriers != [] { WorksInRun(WorksStarted(s.history), s.barriers, l.works); }
  }

  lemma WorksInRun(started: seq<int>, waiting: seq<Barrier>, works: seq<int>)
    requires WorksIn(started, waiting, works) && waiting != []
    ensures WorksIn(started + [waiting[0].work], waiting[1..], works)
  {
  }

  lemma CompleteKeepsRecords(s: State, l: Ledger, ok: bool)
    requires LogsConserved(s) && RecordsKept(s, l)
    ensures RecordsKept(Complete(s, ok), l)
  {
    hide RecordsRun, LogsRun, QueuedBytes, UpTo, RecordsIn;
    var t := Complete(s, ok);
    if |t.history| > |s.history| { HistoryGrows(s.history, t.history[|s.history|]); }
    if s.worker.WritingLog? {
      RecordsInRun(RecordsRun(s.history), s.worker.log, s.logs, l.posted);
      assert Outstanding(t) == s.logs;
    } else {
      assert Outstanding(t) == Outstanding(s);
    }
  }

  lemma RecordsInRun(run: seq<LogRecord>, log: QueuedLog, logs: seq<QueuedLog>, posted: seq<Posted>)
    requires RecordsIn(run, [log] + logs, posted)
    ensures RecordsIn(run + [log.record], logs, posted)
  {
    assert posted[|run|] == Posted(log.record, log.bytes) by { assert ([log] + logs)[0] == log; }
    forall i | 0 <= i < |logs| ensures posted[|run| + 1 + i] == Posted(logs[i].record, logs[i].bytes) {
      assert ([log] + logs)[i + 1] == logs[i];
    }
  }

  lemma CompleteKeepsStatuses(s: State, l: Ledger, ok: bool)
    requires StatusesKept(s, l)
    ensures StatusesKept(Complete(s, ok), l)
  {
    hide StatusesIn;
    var t := Complete(s, ok);
    if s.worker.WritingStatus? {
      StatusesInRun(s.history, s.worker.status, Unwritten(t), l, ok);
      assert Unwritten(s) == [s.worker.status] + Unwritten(t);
    } else {
      if |t.history| > |s.history| { StatusesInMore(s.history, Unwritten(s), l, t.history[|s.history|]); }
      assert Unwritten(t) == Unwritten(s);
    }
  }

  lemma StatusesInRun(h: seq<Item>, status: Status, rest: seq<Status>, l: Ledger, ok: bool)
    ensures StatusesIn(h, [status] + rest, l) ==>
              StatusesIn(h + [RanStatus(status.version, status.path, status.make, ok)], rest, l)
  {
    hide IsSubmission;
    if StatusesIn(h, [status] + rest, l) {
      assert ([status] + rest)[0] == status;
      forall i | 0 <= i < |rest| ensures IsSubmission(l, rest[i].version, rest[i].path, rest[i].make) {
        assert ([status] + rest)[i + 1] == rest[i];
      }
    }
  }

  lemma CompleteKeepsOthers(s: State, l: Ledger, ok: bool)
    requires WorksKept(s, l) && CountsKept(s, l)
    ensures WorksKept(Complete(s, ok), l) && CountsKept(Complete(s, ok), l)
  {
    hide WorksStarted, Persisted, Failures, WorksIn, Clean;
    match s.worker {
      case WritingLog(log) => OthersGrow(s.history, RanLog(log.sequence, log.record, ok), s.barriers, l.works);
      case WritingStatus(status) => OthersGrow(s.history, RanStatus(status.version, status.path, status.make, ok), s.barriers, l.works);
      case RunningBarrier(barrier, integrity) => OthersGrow(s.history, FinishedBarrier(barrier, ok, ok && integrity), s.barriers, l.works);
      case _ =>
    }
  }

  lemma OthersGrow(h: seq<Item>, i: Item, waiting: seq<Barrier>, works: seq<int>)
    requires WorksIn(WorksStarted(h), waiting, works) && (i.RanLog? || i.RanStatus? || i.FinishedBarrier?)
    ensures WorksIn(WorksStarted(h + [i]), waiting, works)
    ensures Persisted(h + [i]) == if i.RanStatus? && i.ok then i.version else Persisted(h)
    ensures Failures(h + [i]) == Failures(h) + (if i.ok then 0 else 1)
  {
    hide WorksStarted, Persisted, Failures, WorksIn, RecordsRun;
    HistoryGrows(h, i);
  }

  lemma SubmitKeepsStatuses(s: State, l: Ledger, path: string, make: int)
    requires StatusesKept(s, l)
    ensures StatusesKept(SubmitStatus(s, path, make), Noted(l, s, Submit(path, make)))
  {
    var t := SubmitStatus(s, path, make);
    if !s.stopping {
      var writing := if s.worker.WritingStatus? then [s.worker.status] else [];
      assert Unwritten(t) == writing + [t.pending.value];
      if s.worker.WritingStatus? { assert Unwritten(s)[0] == s.worker.status; }
    }
  }

  lemma CallKeepsContents(s: State, l: Ledger, a: Action)
    requires Kept(s, l) && (a.Submit? || a.After? || a.RequestStop? || a.ExternalLoss?)
    ensures Kept(Step(s, a), Noted(l, s, a))
  {
    hide RecordsRun, WorksStarted, Persisted, Failures, RecordsIn, StatusesIn;
    HistoryGrows(s.history, LostOutside);
    StatusesInMore(s.history, Unwritten(s), l, LostOutside);
    if a.Submit? { SubmitKeepsStatuses(s, l, a.path, a.make); }
    if a.After? { SameSubmissions(s.history, Unwritten(s), l, Noted(l, s, a)); }
  }

  lemma {:induction false} StepKeepsContents(s: State, l: Ledger, a: Action)
    requires LogsConserved(s) && Kept(s, l)
    ensures Kept(Step(s, a), Noted(l, s, a))
  {
    hide LogsConserved, RecordsKept, StatusesKept, WorksKept, CountsKept, Pick, Complete, PostLog;
    match a {
      case Post(r, header) => PostKeepsContents(s, l, r, header);
      case WorkerPick => PickKeepsRecords(s, l); PickKeepsStatuses(s, l); PickKeepsOthers(s, l);
      case WorkerComplete(ok) =>
        CompleteKeepsRecords(s, l, ok);
        CompleteKeepsStatuses(s, l, ok);
        CompleteKeepsOthers(s, l, ok);
      case _ => CallKeepsContents(s, l, a);
    }
  }

  lemma {:induction false} RunKeepsContents(s: State, l: Ledger, actions: seq<Action>)
    requires Inv(s) && Kept(s, l)
    ensures Kept(Run(s, actions), LedgerOf(l, s, actions)) && Inv(Run(s, actions))
    decreases |actions|
  {
    hide Inv, Kept, Step, Noted, LogsConserved;
    if actions != [] {
      StepKeepsInv(s, actions[0]);
      InvConserves(s);
      StepKeepsContents(s, l, actions[0]);
      RunKeepsContents(Step(s, actions[0]), Noted(l, s, actions[0]), actions[1..]);
    }
  }

  lemma InvConserves(s: State)
    requires Inv(s)
    ensures LogsConserved(s) && StatusesConserved(s)
  {
    hide LogsConserved, StatusesConserved, BarriersOrdered, Alternates, Honest, DrainedAtExit;
  }

  lemma InitialContents(s: State, l: Ledger)
    requires s == INITIAL && l == NOTHING
    ensures Kept(s, l)
  {
  }

  /** In every interleaving the records run are the accepted ones from the first on, whole and in order;
      the one being written and those queued are the rest, each counted with its own size; statuses are
      written with the path and the factory of their submission, and the pending one is the newest; and
      works run in order of acceptance. Acceptance is told from the calls: what fits beside the records
      not yet written. */
  lemma {:induction false} JobsGetWhatWasAccepted(actions: seq<Action>)
    ensures var s, l := Run(INITIAL, actions), LedgerOf(NOTHING, INITIAL, actions);
            && RecordsKept(s, l) && StatusesKept(s, l) && WorksKept(s, l)
            && (s.pending.Some? ==>
                  l.submitted != [] && l.submitted[|l.submitted| - 1] == Submission(s.pending.value.path, s.pending.value.make))
  {
    hide Inv, Run, LedgerOf, RecordsKept, WorksKept, CountsKept, StatusesConserved, LogsConserved;
    InitialInv();
    var start, nothing := INITIAL, NOTHING;
    InitialContents(start, nothing);
    RunKeepsContents(start, nothing, actions);
    InvConserves(Run(start, actions));
    if Run(start, actions).pending.Some? { NewestIsPending(Run(start, actions), LedgerOf(nothing, start, actions)); }
  }

  lemma NewestIsPending(s: State, l: Ledger)
    requires StatusesConserved(s) && StatusesKept(s, l) && s.pending.Some?
    ensures l.submitted != [] && l.submitted[|l.submitted| - 1] == Submission(s.pending.value.path, s.pending.value.make)
  {
    hide StatusesRun;
    assert Unwritten(s)[|Unwritten(s)| - 1] == s.pending.value;
  }

  /** In every interleaving the counters are true: refused records and their sizes, failures, the newest
      status written, and the most that was ever waiting. */
  lemma {:induction false} CountersAreTrue(actions: seq<Action>)
    ensures CountsKept(Run(INITIAL, actions), LedgerOf(NOTHING, INITIAL, actions))
  {
    hide Inv, Run, LedgerOf, RecordsKept, StatusesKept, WorksKept, CountsKept;
    InitialInv();
    var start, nothing := INITIAL, NOTHING;
    InitialContents(start, nothing);
    RunKeepsContents(start, nothing, actions);
  }

  // ---- The history is what the worker was seen to do ----

  /** What one step is seen to do: the worker turning to a job, with what else waits, or back from one;
      a call refused; a loss reported. */
  function Observed(s: State, a: Action): seq<Item> {
    var t := Step(s, a).worker;
    match a
    case WorkerPick =>
      if !s.worker.Idle? then []
      else if t.WritingLog? then [PickedLog(s.pending.Some?)]
      else if t.WritingStatus? then [PickedStatus(s.logs != [])]
      else if t.RunningBarrier? then [StartedBarrier(t.barrier)]
      else []
    case WorkerComplete(ok) =>
      if s.worker.WritingLog? then [RanLog(s.worker.log.sequence, s.worker.log.record, ok)]
      else if s.worker.WritingStatus? then [RanStatus(s.worker.status.version, s.worker.status.path, s.worker.status.make, ok)]
      else if s.worker.RunningBarrier? then [FinishedBarrier(s.worker.barrier, ok, ok && s.worker.integrity)]
      else []
    case Post(_, _) => if Step(s, a).droppedLogs > s.droppedLogs then [DroppedLog] else []
    case ExternalLoss => [LostOutside]
    case _ => []
  }

  function ObservedAll(s: State, actions: seq<Action>): seq<Item>
    decreases |actions|
  {
    if actions == [] then [] else Observed(s, actions[0]) + ObservedAll(Step(s, actions[0]), actions[1..])
  }

  lemma StepIsObserved(s: State, a: Action)
    ensures Step(s, a).history == s.history + Observed(s, a)
    ensures a.WorkerComplete? && !s.worker.Idle? && !s.worker.Exited? ==> Step(s, a).worker.Idle?
  {
  }

  /** The history on which the theorems rest is exactly what the run was seen to do, in order. */
  lemma {:induction false} HistoryIsObserved(s: State, actions: seq<Action>)
    ensures Run(s, actions).history == s.history + ObservedAll(s, actions)
    decreases |actions|
  {
    hide Step, Observed;
    if actions == [] {
      assert s.history + [] == s.history;
    } else {
      StepIsObserved(s, actions[0]);
      HistoryIsObserved(Step(s, actions[0]), actions[1..]);
    }
  }
}
