/** Ordering, conservation, progress, fairness and shutdown of the diagnostic writer, over every
    interleaving of producers and worker. */
module DiagnosticWriterProofs {
  import opened Basics
  import opened DiagnosticWriterModel

  // ---- Reading the history ----

  /** The sequence numbers of the logs run so far, in order. */
  function LogsRun(h: seq<Item>): seq<nat> {
    if h == [] then []
    else LogsRun(h[..|h| - 1]) + (if h[|h| - 1].RanLog? then [h[|h| - 1].sequence] else [])
  }

  function StatusesRun(h: seq<Item>): seq<nat> {
    if h == [] then []
    else StatusesRun(h[..|h| - 1]) + (if h[|h| - 1].RanStatus? then [h[|h| - 1].version] else [])
  }

  /** The picks that were not barriers. */
  function Picks(h: seq<Item>): seq<Item> {
    if h == [] then []
    else Picks(h[..|h| - 1]) + (if h[|h| - 1].PickedLog? || h[|h| - 1].PickedStatus? then [h[|h| - 1]] else [])
  }

  predicate Clean(i: Item) {
    match i
    case RanLog(_, _, ok) => ok
    case RanStatus(_, _, _, ok) => ok
    case FinishedBarrier(_, ok, _) => ok
    case DroppedLog => false
    case LostOutside => false
    case _ => true
  }

  function Last(versions: seq<nat>): nat {
    if versions == [] then 0 else versions[|versions| - 1]
  }

  function UpTo(n: nat): (r: seq<nat>)
    ensures |r| == n && forall i :: 0 <= i < n ==> r[i] == i + 1
  {
    if n == 0 then [] else UpTo(n - 1) + [n]
  }

  function QueuedBytes(logs: seq<QueuedLog>): nat {
    if logs == [] then 0 else logs[0].bytes + QueuedBytes(logs[1..])
  }

  lemma QueuedBytesAppend(logs: seq<QueuedLog>, log: QueuedLog)
    ensures QueuedBytes(logs + [log]) == QueuedBytes(logs) + log.bytes
  {
    if logs != [] {
      assert (logs + [log])[1..] == logs[1..] + [log];
      QueuedBytesAppend(logs[1..], log);
    }
  }

  // ---- The invariant, part by part ----

  function LogsInFlight(s: State): nat { if s.worker.WritingLog? then 1 else 0 }
  function BytesInFlight(s: State): nat { if s.worker.WritingLog? then s.worker.log.bytes else 0 }
  function StatusesWaiting(s: State): nat { if s.pending.Some? then 1 else 0 }
  function StatusesInFlight(s: State): nat { if s.worker.WritingStatus? then 1 else 0 }

  /** Accepted logs are completed, in flight or queued, in order of acceptance, and their bytes are accounted for. */
  ghost predicate LogsConserved(s: State) {
    && s.logBytes == QueuedBytes(s.logs) + BytesInFlight(s) <= LOG_CAPACITY
    && s.acceptedLogs == s.completedLogs + LogsInFlight(s) + |s.logs|
    && (s.worker.WritingLog? ==> s.worker.log.sequence == s.completedLogs + 1)
    && (forall i :: 0 <= i < |s.logs| ==> s.logs[i].sequence == s.completedLogs + LogsInFlight(s) + 1 + i)
    && LogsRun(s.history) == UpTo(s.completedLogs)
  }

  /** Submitted statuses are completed, coalesced, pending or being written; the newest is never lost. */
  ghost predicate StatusesConserved(s: State) {
    && s.submittedVersion == |StatusesRun(s.history)| + s.coalesced + StatusesWaiting(s) + StatusesInFlight(s)
    && s.completedVersion == Last(StatusesRun(s.history)) <= s.submittedVersion
    && (s.pending.Some? ==> s.pending.value.version == s.submittedVersion > s.completedVersion)
    && (s.worker.WritingStatus? ==>
          && s.completedVersion < s.worker.status.version <= s.submittedVersion
          && s.writingVersion == s.worker.status.version
          && (s.pending.Some? ==> s.worker.status.version < s.submittedVersion)
          && (s.pending.None? ==> s.worker.status.version == s.submittedVersion))
    && (!s.worker.WritingStatus? ==> s.writingVersion == 0)
    && (s.pending.None? && !s.worker.WritingStatus? ==> s.completedVersion == s.submittedVersion)
  }

  /** The queued barriers refer to the past, and those started came after everything they wait for. */
  ghost predicate BarriersOrdered(s: State) {
    && |s.barriers| <= BARRIER_CAPACITY
    && (forall i :: 0 <= i < |s.barriers| ==>
          s.barriers[i].logSequence <= s.acceptedLogs && s.barriers[i].statusVersion <= s.submittedVersion)
    && AllServed(s.history)
  }

  ghost predicate AllServed(h: seq<Item>) {
    forall p {:trigger Served(h, p)} :: 0 <= p < |h| && h[p].StartedBarrier? ==> Served(h, p)
  }

  /** At position `p` a barrier starts: every log accepted before it, and a status at least as new as
      the one submitted before it, have been run by then. */
  ghost predicate Served(h: seq<Item>, p: nat)
    requires p < |h| && h[p].StartedBarrier?
  {
    && UpTo(h[p].barrier.logSequence) <= LogsRun(h[..p])
    && h[p].barrier.statusVersion <= Last(StatusesRun(h[..p]))
  }

  /** After `before`, the pick `after` does not pass the other kind over again. */
  ghost predicate Fair(before: Item, after: Item) {
    && !(before.PickedStatus? && after.PickedStatus? && after.logWaiting)
    && !(before.PickedLog? && after.PickedLog? && after.statusWaiting)
  }

  /** No two picks in a row, barriers aside, pass the same waiting kind over; the first prefers a status. */
  ghost predicate Alternates(h: seq<Item>, preferLog: bool) {
    var picks := Picks(h);
    && preferLog == (picks != [] && picks[|picks| - 1].PickedStatus?)
    && (picks != [] ==> !(picks[0].PickedLog? && picks[0].statusWaiting))
    && (forall i :: 0 <= i < |picks| ==> picks[i].PickedLog? || picks[i].PickedStatus?)
    && forall i, j :: 0 <= i < j < |picks| && j == i + 1 ==> Fair(picks[i], picks[j])
  }

  predicate NothingWrong(s: State) { s.failures == 0 && s.droppedLogs == 0 }

  ghost predicate AllClean(h: seq<Item>) { forall i :: 0 <= i < |h| ==> Clean(h[i]) }

  /** Nothing is counted as wrong exactly while the history is clean, and every barrier reports the truth. */
  ghost predicate Honest(h: seq<Item>, nothingWrong: bool, worker: Worker) {
    && (nothingWrong <==> AllClean(h))
    && (worker.RunningBarrier? ==> StartedCleanly(h, worker.barrier, worker.integrity))
    && forall q {:trigger Vouched(h, q)} :: 0 <= q < |h| && h[q].FinishedBarrier? ==> Vouched(h, q)
  }

  /** The last barrier started is `b`, over a clean history exactly if `integrity`. */
  ghost predicate StartedCleanly(h: seq<Item>, b: Barrier, integrity: bool) {
    exists p :: 0 <= p < |h| && h[p] == StartedBarrier(b) && NoneStarted(h[p + 1..]) && (integrity <==> AllClean(h[..p]))
  }

  ghost predicate NoneStarted(h: seq<Item>) { forall i :: 0 <= i < |h| ==> !h[i].StartedBarrier? }

  /** What a barrier reports: success exactly if its own work did well and the history was clean when
      it started. */
  ghost predicate Vouched(h: seq<Item>, q: nat)
    requires q < |h| && h[q].FinishedBarrier?
  {
    exists clean: bool :: StartedCleanly(h[..q], h[q].barrier, clean) && (h[q].reported <==> h[q].ok && clean)
  }

  ghost predicate DrainedAtExit(s: State) {
    s.worker.Exited? ==> s.stopping && s.logs == [] && s.pending.None? && s.barriers == []
  }

  ghost predicate Inv(s: State) {
    && LogsConserved(s) && StatusesConserved(s) && BarriersOrdered(s)
    && Alternates(s.history, s.preferLog) && Honest(s.history, NothingWrong(s), s.worker)
    && DrainedAtExit(s)
  }

  // ---- Progress ----

  /** An idle worker that is woken always has something to take, or exits: a waiting barrier can
      neither be stuck behind nothing nor make the worker spin. */
  lemma WokenWorkerActs(s: State)
    requires Inv(s) && s.worker.Idle? && Awake(s)
    ensures !Pick(s).worker.Idle?
    ensures Pick(s).worker.Exited? <==> s.stopping && s.logs == [] && s.pending.None? && s.barriers == []
  {
    if s.barriers != [] {
      assert s.barriers[0].logSequence <= s.acceptedLogs;
    }
  }

  // ---- Every step keeps the invariant ----

  lemma HistorySnoc(h: seq<Item>, i: Item)
    ensures LogsRun(h + [i]) == LogsRun(h) + (if i.RanLog? then [i.sequence] else [])
    ensures StatusesRun(h + [i]) == StatusesRun(h) + (if i.RanStatus? then [i.version] else [])
    ensures Picks(h + [i]) == Picks(h) + (if i.PickedLog? || i.PickedStatus? then [i] else [])
  {
    assert (h + [i])[..|h|] == h;
  }

  lemma PostKeepsLogs(s: State, r: LogRecord, header: nat)
    requires LogsConserved(s)
    ensures LogsConserved(PostLog(s, r, header))
  {
    hide LogsRun, UpTo;
    var t := PostLog(s, r, header);
    if s.stopping || s.logBytes + Cost(r, header) > LOG_CAPACITY {
      HistorySnoc(s.history, DroppedLog);
    } else {
      QueuedBytesAppend(s.logs, t.logs[|s.logs|]);
    }
  }

  lemma PickKeepsLogs(s: State)
    requires LogsConserved(s)
    ensures LogsConserved(Pick(s))
  {
    hide LogsRun, UpTo;
    var t := Pick(s);
    if |t.history| > |s.history| { HistorySnoc(s.history, t.history[|s.history|]); }
    if t.worker.WritingLog? && !s.worker.WritingLog? {
      assert QueuedBytes(s.logs) == s.logs[0].bytes + QueuedBytes(t.logs);
    }
  }

  lemma CompleteKeepsLogs(s: State, ok: bool)
    requires LogsConserved(s)
    ensures LogsConserved(Complete(s, ok))
  {
    hide LogsRun, QueuedBytes;
    var t := Complete(s, ok);
    if |t.history| > |s.history| { HistorySnoc(s.history, t.history[|s.history|]); }
  }

  lemma {:induction false} StepKeepsLogs(s: State, a: Action)
    requires LogsConserved(s)
    ensures LogsConserved(Step(s, a))
  {
    hide LogsRun, QueuedBytes, UpTo, PostLog, Pick, Complete;
    match a
    case Post(r, header) => PostKeepsLogs(s, r, header);
    case WorkerPick => PickKeepsLogs(s);
    case WorkerComplete(ok) => CompleteKeepsLogs(s, ok);
    case ExternalLoss => HistorySnoc(s.history, LostOutside);
    case _ =>
  }

  lemma PickKeepsStatuses(s: State)
    requires StatusesConserved(s)
    ensures StatusesConserved(Pick(s))
  {
    hide StatusesRun, BarrierReady, Last;
    var t := Pick(s);
    if |t.history| > |s.history| { HistorySnoc(s.history, t.history[|s.history|]); }
    assert StatusesRun(t.history) == StatusesRun(s.history);
  }

  /** What completing a job does to the statuses. */
  lemma CompletedStatuses(s: State, ok: bool)
    ensures var t := Complete(s, ok);
            && t.pending == s.pending && t.submittedVersion == s.submittedVersion && t.coalesced == s.coalesced
            && !t.worker.WritingStatus?
            && if s.worker.WritingStatus? then
                 && t.completedVersion == s.worker.status.version && t.writingVersion == 0
                 && t.history == s.history + [RanStatus(s.worker.status.version, s.worker.status.path, s.worker.status.make, ok)]
               else
                 && t.completedVersion == s.completedVersion && t.writingVersion == s.writingVersion
                 && (t.history == s.history
                     || (t.history == s.history + [t.history[|s.history|]] && !t.history[|s.history|].RanStatus?))
  {
  }

  lemma CompleteKeepsStatuses(s: State, ok: bool)
    requires StatusesConserved(s)
    ensures StatusesConserved(Complete(s, ok))
  {
    hide StatusesRun, Last, Complete;
    var t := Complete(s, ok);
    CompletedStatuses(s, ok);
    if s.worker.WritingStatus? {
      HistorySnoc(s.history, t.history[|s.history|]);
      LastSnoc(StatusesRun(s.history), s.worker.status.version);
    } else if t.history != s.history {
      HistorySnoc(s.history, t.history[|s.history|]);
      assert StatusesRun(t.history) == StatusesRun(s.history);
    }
  }

  lemma LastSnoc(versions: seq<nat>, v: nat)
    ensures Last(versions + [v]) == v
  {
  }

  lemma {:induction false} StepKeepsStatuses(s: State, a: Action)
    requires StatusesConserved(s)
    ensures StatusesConserved(Step(s, a))
  {
    hide StatusesRun, Pick, Complete;
    match a
    case WorkerPick => PickKeepsStatuses(s);
    case WorkerComplete(ok) => CompleteKeepsStatuses(s, ok);
    case ExternalLoss => HistorySnoc(s.history, LostOutside);
    case Post(_, _) => HistorySnoc(s.history, DroppedLog);
    case _ =>
  }

  lemma UpToPrefix(m: nat, n: nat)
    requires m <= n
    ensures UpTo(m) <= UpTo(n)
  {
  }

  lemma ServedSnoc(h: seq<Item>, i: Item)
    requires AllServed(h)
    requires i.StartedBarrier? ==> Served(h + [i], |h|)
    ensures AllServed(h + [i])
  {
    hide LogsRun, StatusesRun, UpTo;
    forall p {:trigger Served(h + [i], p)} | 0 <= p < |h + [i]| && (h + [i])[p].StartedBarrier? ensures Served(h + [i], p) {
      if p < |h| {
        assert Served(h, p);
        assert (h + [i])[..p] == h[..p];
      }
    }
  }

  lemma ReadyBarrierIsServed(s: State)
    requires LogsConserved(s) && StatusesConserved(s) && BarrierReady(s)
    ensures Served(s.history + [StartedBarrier(s.barriers[0])], |s.history|)
  {
    hide LogsRun, StatusesRun, UpTo, QueuedBytes;
    var i := StartedBarrier(s.barriers[0]);
    assert (s.history + [i])[..|s.history|] == s.history;
    UpToPrefix(s.barriers[0].logSequence, s.completedLogs);
  }

  lemma PickKeepsBarriers(s: State)
    requires LogsConserved(s) && StatusesConserved(s) && BarriersOrdered(s)
    ensures BarriersOrdered(Pick(s))
  {
    hide AllServed, Served, LogsConserved, StatusesConserved;
    var t := Pick(s);
    if |t.history| > |s.history| {
      var i := t.history[|s.history|];
      if i.StartedBarrier? { ReadyBarrierIsServed(s); }
      ServedSnoc(s.history, i);
    }
  }

  lemma StepKeepsBarriers(s: State, a: Action)
    requires LogsConserved(s) && StatusesConserved(s) && BarriersOrdered(s)
    ensures BarriersOrdered(Step(s, a))
  {
    hide AllServed, Served, LogsConserved, StatusesConserved, Pick;
    var t := Step(s, a);
    if a.WorkerPick? {
      PickKeepsBarriers(s);
    } else if |t.history| > |s.history| {
      ServedSnoc(s.history, t.history[|s.history|]);
    }
  }

  lemma AlternatesSnoc(h: seq<Item>, preferLog: bool, i: Item)
    requires Alternates(h, preferLog)
    requires i.PickedStatus? && preferLog ==> !i.logWaiting
    requires i.PickedLog? && !preferLog ==> !i.statusWaiting
    ensures Alternates(h + [i], if i.PickedStatus? then true else if i.PickedLog? then false else preferLog)
  {
    hide Picks;
    HistorySnoc(h, i);
  }

  lemma {:induction false} PickKeepsAlternation(s: State)
    requires Alternates(s.history, s.preferLog)
    ensures Alternates(Pick(s).history, Pick(s).preferLog)
  {
    hide Alternates;
    var t := Pick(s);
    if |t.history| > |s.history| {
      AlternatesSnoc(s.history, s.preferLog, t.history[|s.history|]);
    }
  }

  lemma {:induction false} StepKeepsAlternation(s: State, a: Action)
    requires Alternates(s.history, s.preferLog)
    ensures Alternates(Step(s, a).history, Step(s, a).preferLog)
  {
    hide Alternates, Pick;
    var t := Step(s, a);
    if a.WorkerPick? {
      PickKeepsAlternation(s);
    } else if |t.history| > |s.history| {
      AlternatesSnoc(s.history, s.preferLog, t.history[|s.history|]);
    }
  }

  lemma AllCleanSnoc(h: seq<Item>, i: Item)
    ensures AllClean(h + [i]) <==> AllClean(h) && Clean(i)
  {
    assert (h + [i])[|h|] == i;
    if AllClean(h + [i]) {
      forall k | 0 <= k < |h| ensures Clean(h[k]) { assert (h + [i])[k] == h[k]; }
    }
  }

  lemma StartedSnoc(h: seq<Item>, b: Barrier, integrity: bool, i: Item)
    requires StartedCleanly(h, b, integrity) && !i.StartedBarrier?
    ensures StartedCleanly(h + [i], b, integrity)
  {
    hide AllClean;
    var p :| 0 <= p < |h| && h[p] == StartedBarrier(b) && NoneStarted(h[p + 1..]) && (integrity <==> AllClean(h[..p]));
    assert (h + [i])[p] == h[p] && (h + [i])[..p] == h[..p] && (h + [i])[p + 1..] == h[p + 1..] + [i];
  }

  lemma VouchedSnoc(h: seq<Item>, q: nat, i: Item)
    requires q < |h| && h[q].FinishedBarrier? && Vouched(h, q)
    ensures Vouched(h + [i], q)
  {
    hide StartedCleanly;
    assert (h + [i])[..q] == h[..q] && (h + [i])[q] == h[q];
  }

  lemma HonestSnoc(h: seq<Item>, nothingWrong: bool, worker: Worker, i: Item, nothingWrong': bool, worker': Worker)
    requires Honest(h, nothingWrong, worker)
    requires nothingWrong' <==> nothingWrong && Clean(i)
    requires i.StartedBarrier? ==> worker' == RunningBarrier(i.barrier, nothingWrong)
    requires !i.StartedBarrier? ==> worker' == worker || !worker'.RunningBarrier?
    requires i.FinishedBarrier? ==>
               worker.RunningBarrier? && worker.barrier == i.barrier && (i.reported <==> i.ok && worker.integrity)
    ensures Honest(h + [i], nothingWrong', worker')
  {
    hide StartedCleanly, AllClean;
    AllCleanSnoc(h, i);
    assert (h + [i])[|h|] == i && (h + [i])[..|h|] == h;
    if i.StartedBarrier? {
      JustStarted(h, i.barrier, nothingWrong);
    } else if worker.RunningBarrier? {
      StartedSnoc(h, worker.barrier, worker.integrity, i);
    }
    forall q {:trigger Vouched(h + [i], q)} | 0 <= q < |h + [i]| && (h + [i])[q].FinishedBarrier?
      ensures Vouched(h + [i], q)
    {
      if q < |h| {
        assert Vouched(h, q);
        VouchedSnoc(h, q, i);
      } else {
        assert StartedCleanly((h + [i])[..q], i.barrier, worker.integrity);
      }
    }
  }

  lemma JustStarted(h: seq<Item>, b: Barrier, clean: bool)
    requires clean <==> AllClean(h)
    ensures StartedCleanly(h + [StartedBarrier(b)], b, clean)
  {
    hide AllClean;
    var all := h + [StartedBarrier(b)];
    assert all[|h|] == StartedBarrier(b) && all[..|h|] == h && all[|h| + 1..] == [];
  }

  lemma PickKeepsHonesty(s: State)
    requires Honest(s.history, NothingWrong(s), s.worker)
    ensures Honest(Pick(s).history, NothingWrong(Pick(s)), Pick(s).worker)
  {
    hide Honest;
    var t := Pick(s);
    if |t.history| > |s.history| {
      HonestSnoc(s.history, NothingWrong(s), s.worker, t.history[|s.history|], NothingWrong(t), t.worker);
    } else {
      SameHonesty(s.history, NothingWrong(s), s.worker, t.worker);
    }
  }

  lemma StepKeepsHonesty(s: State, a: Action)
    requires Honest(s.history, NothingWrong(s), s.worker)
    ensures Honest(Step(s, a).history, NothingWrong(Step(s, a)), Step(s, a).worker)
  {
    hide Honest, Pick;
    var t := Step(s, a);
    if a.WorkerPick? {
      PickKeepsHonesty(s);
    } else if |t.history| > |s.history| {
      HonestSnoc(s.history, NothingWrong(s), s.worker, t.history[|s.history|], NothingWrong(t), t.worker);
    } else {
      SameHonesty(s.history, NothingWrong(s), s.worker, t.worker);
    }
  }

  lemma SameHonesty(h: seq<Item>, nothingWrong: bool, worker: Worker, worker': Worker)
    requires Honest(h, nothingWrong, worker)
    requires worker' == worker || !worker'.RunningBarrier?
    ensures Honest(h, nothingWrong, worker')
  {
  }

  lemma StepKeepsInv(s: State, a: Action)
    requires Inv(s)
    ensures Inv(Step(s, a))
  {
    hide LogsConserved, StatusesConserved, BarriersOrdered, Alternates, Honest;
    StepKeepsLogs(s, a);
    StepKeepsStatuses(s, a);
    StepKeepsBarriers(s, a);
    StepKeepsAlternation(s, a);
    StepKeepsHonesty(s, a);
    if s.worker.Idle? && Awake(s) { WokenWorkerActs(s); }
  }

  lemma {:induction false} RunKeepsInv(s: State, actions: seq<Action>)
    requires Inv(s)
    ensures Inv(Run(s, actions))
    decreases |actions|
  {
    hide Inv, Step;
    if actions != [] {
      StepKeepsInv(s, actions[0]);
      RunKeepsInv(Step(s, actions[0]), actions[1..]);
    }
  }

  lemma EmptyHistory(h: seq<Item>, logs: seq<QueuedLog>)
    requires |h| == |logs| == 0
    ensures LogsRun(h) == [] && StatusesRun(h) == [] && QueuedBytes(logs) == 0
    ensures AllServed(h) && Alternates(h, false) && Honest(h, true, Idle)
  {
  }

  lemma InitialCounts(s: State)
    requires |s.history| == |s.logs| == s.logBytes == s.coalesced < 1 && s.pending.None? && s.worker.Idle?
    requires s.acceptedLogs == s.completedLogs < 1
    requires s.submittedVersion == s.completedVersion == s.writingVersion < 1
    ensures LogsConserved(s) && StatusesConserved(s)
  {
    EmptyHistory(s.history, s.logs);
  }

  lemma {:induction false} InitialInv()
    ensures Inv(INITIAL)
  {
    hide LogsConserved, StatusesConserved, AllServed, Alternates, Honest;
    InitialCounts(INITIAL);
    EmptyHistory(INITIAL.history, INITIAL.logs);
  }

  /** Every state that any interleaving reaches from the start satisfies the invariant. */
  lemma ReachableInv(actions: seq<Action>)
    ensures Inv(Run(INITIAL, actions))
  {
    hide Inv, Run;
    InitialInv();
    RunKeepsInv(INITIAL, actions);
  }

  // ---- The theorems, for every interleaving ----

  /** A barrier starts only after every log accepted before it was run, oldest first, and a status
      at least as new as the one it followed was run. */
  lemma BarriersWaitForTheirPast(actions: seq<Action>, p: nat)
    ensures var h := Run(INITIAL, actions).history;
            p < |h| && h[p].StartedBarrier? ==> Served(h, p)
  {
    hide LogsConserved, StatusesConserved, Alternates, Honest, DrainedAtExit, Run, Served;
    ReachableInv(actions);
  }

  /** A barrier reports success exactly if its own work did well and nothing had been dropped, lost or
      failed when it started. */
  lemma SuccessIsVouchedFor(actions: seq<Action>, q: nat)
    ensures var h := Run(INITIAL, actions).history;
            q < |h| && h[q].FinishedBarrier? ==> Vouched(h, q)
  {
    hide LogsConserved, StatusesConserved, BarriersOrdered, Alternates, DrainedAtExit, Run, Vouched;
    ReachableInv(actions);
  }

  /** Logs and statuses are conserved and bytes accounted for in every interleaving. */
  lemma NothingIsLost(actions: seq<Action>)
    ensures var s := Run(INITIAL, actions);
            && s.logBytes == QueuedBytes(s.logs) + BytesInFlight(s) <= LOG_CAPACITY
            && s.acceptedLogs == |LogsRun(s.history)| + LogsInFlight(s) + |s.logs|
            && LogsRun(s.history) == UpTo(s.completedLogs)
            && s.submittedVersion == |StatusesRun(s.history)| + s.coalesced + StatusesWaiting(s) + StatusesInFlight(s)
  {
    hide BarriersOrdered, Alternates, Honest, DrainedAtExit, Run;
    ReachableInv(actions);
  }

  /** With both kinds waiting, the worker never passes the same one over twice running. */
  lemma NeitherKindStarves(actions: seq<Action>, i: nat)
    ensures var picks := Picks(Run(INITIAL, actions).history);
            0 < i < |picks| ==> Fair(picks[i - 1], picks[i])
  {
    hide LogsConserved, StatusesConserved, BarriersOrdered, Honest, DrainedAtExit, Run, Fair;
    ReachableInv(actions);
  }

  lemma ExitedIsDrained(s: State)
    requires Inv(s) && s.worker.Exited?
    ensures s.stopping && s.logs == [] && s.pending.None? && s.barriers == []
    ensures s.completedLogs == s.acceptedLogs && s.completedVersion == s.submittedVersion
  {
    hide BarriersOrdered, Alternates, Honest, LogsRun, StatusesRun, UpTo;
  }

  /** The worker exits only with nothing left: every accepted log and the newest status were run. */
  lemma ExitIsDrained(actions: seq<Action>)
    ensures var s := Run(INITIAL, actions);
            s.worker.Exited? ==> s.stopping && s.logs == [] && s.pending.None? && s.barriers == []
                                 && s.completedLogs == s.acceptedLogs && s.completedVersion == s.submittedVersion
  {
    hide Inv, Run;
    ReachableInv(actions);
    if Run(INITIAL, actions).worker.Exited? { ExitedIsDrained(Run(INITIAL, actions)); }
  }

  // ---- Shutdown terminates ----

  /** Worker steps still ahead once producers are refused. */
  function Remaining(s: State): nat {
    match s.worker
    case Exited => 0
    case Idle => 2 * (|s.logs| + StatusesWaiting(s) + |s.barriers|) + 1
    case _ => 2 * (|s.logs| + StatusesWaiting(s) + |s.barriers|) + 2
  }

  /** The number of worker steps in a run that do something. */
  function WorkerSteps(s: State, actions: seq<Action>): nat
    decreases |actions|
  {
    if actions == [] then 0
    else (if Step(s, actions[0]).worker != s.worker then 1 else 0) + WorkerSteps(Step(s, actions[0]), actions[1..])
  }

  lemma StepAfterStop(s: State, a: Action)
    requires Inv(s) && s.stopping
    ensures var t := Step(s, a);
            t.stopping && (if t.worker != s.worker then 1 else 0) + Remaining(t) == Remaining(s)
  {
    hide LogsConserved, StatusesConserved, BarriersOrdered, Alternates, Honest, NothingWrong;
    if s.worker.Idle? { WokenWorkerActs(s); }
  }

  function WorkerStep(s: State, ok: bool): State {
    if s.worker.Idle? then Pick(s) else Complete(s, ok)
  }

  lemma {:induction false} WorkerActsAfterStop(s: State, ok: bool)
    requires Inv(s) && s.stopping && !s.worker.Exited?
    ensures var t := WorkerStep(s, ok);
            && Inv(t) && t.stopping && Remaining(t) < Remaining(s)
            && t.acceptedLogs == s.acceptedLogs && t.submittedVersion == s.submittedVersion
  {
    hide Inv, Remaining;
    var a := if s.worker.Idle? then WorkerPick else WorkerComplete(ok);
    StepKeepsInv(s, a);
    StepAfterStop(s, a);
    if s.worker.Idle? { WokenWorkerActs(s); }
  }

  /** After a stop request the worker takes at most `Remaining` more steps, whatever else happens
      meanwhile, and each step it takes brings the exit one nearer. */
  lemma {:induction false} ShutdownIsBounded(s: State, actions: seq<Action>)
    requires Inv(s) && s.stopping
    ensures WorkerSteps(s, actions) + Remaining(Run(s, actions)) == Remaining(s)
    decreases |actions|
  {
    hide Inv, Remaining, Step;
    if actions != [] {
      StepKeepsInv(s, actions[0]);
      StepAfterStop(s, actions[0]);
      ShutdownIsBounded(Step(s, actions[0]), actions[1..]);
    }
  }
}
