/** What every interleaving of the thumbnail worker keeps. */
module ThumbnailWorkerProofs {
  import opened Basics
  import opened ThumbnailWorkerModel

  // ---- Conservation ----

  predicate Busy(w: Worker) { !w.Waiting? && !w.Exited? }

  function One(b: bool): nat { if b then 1 else 0 }

  predicate Conserved(s: State) {
    && s.revision == One(s.preparing.Some?) + One(s.pending.Some?) + One(Busy(s.worker))
                     + s.counters.sent + s.counters.failed + s.counters.discarded + s.counters.replaced
    && s.counters.active == Busy(s.worker)
    && |s.claims| == s.revision
    && (!s.running ==> s.pending.None?)
    && (s.worker.Exited? ==> !s.running)
  }

  lemma WorkKeepsConserved(s: State, o: Outcome)
    requires Conserved(s)
    ensures Conserved(WorkerStep(s, o))
  {
  }

  lemma {:induction false} NextKeepsConserved(s: State, a: Action)
    requires Conserved(s)
    ensures Conserved(Next(s, a))
  {
    hide WorkerStep;
    if a.Work? { WorkKeepsConserved(s, a.outcome); }
  }

  // ---- Who gets which revision ----

  /** A job is the claim with its number. */
  predicate Bound(s: State, job: Job) {
    && 1 <= job.revision <= |s.claims|
    && s.claims[job.revision - 1].sender == job.sender && s.claims[job.revision - 1].generation == job.generation
  }

  /** The jobs there are, each the claim with its number. */
  predicate AllBound(s: State) {
    && (s.preparing.Some? ==> Bound(s, s.preparing.value))
    && (s.pending.Some? ==> Bound(s, s.pending.value))
    && (Busy(s.worker) ==> Bound(s, s.worker.job))
    && |s.claims| == s.revision
  }

  function LastDelivered(s: State): nat { if s.deliveries == [] then 0 else s.deliveries[|s.deliveries| - 1].revision }

  /** Whether the worker's job may still be sent. */
  predicate Unsent(w: Worker) { w.Picked? || w.Encoding? || w.Sending? }

  /** Revisions in the order they were claimed: delivered, at the worker, pending, being prepared. */
  predicate InLine(s: State) {
    && LastDelivered(s) <= s.revision
    && (Unsent(s.worker) ==> LastDelivered(s) < s.worker.job.revision)
    && (s.pending.Some? ==> LastDelivered(s) < s.pending.value.revision <= s.revision)
    && (Busy(s.worker) && s.pending.Some? ==> s.worker.job.revision < s.pending.value.revision)
    && (s.preparing.Some? ==>
          && LastDelivered(s) < s.preparing.value.revision == s.revision
          && (s.pending.Some? ==> s.pending.value.revision < s.revision)
          && (Busy(s.worker) ==> s.worker.job.revision < s.revision))
  }

  /** Each packet handed over went to the sender its frame was claimed for, in claiming order. */
  predicate Delivered(s: State) {
    && (forall i :: 0 <= i < |s.deliveries| ==>
          && 1 <= s.deliveries[i].revision <= |s.claims|
          && s.deliveries[i].sender == s.claims[s.deliveries[i].revision - 1].sender)
    && (forall i, j :: 0 <= i < j < |s.deliveries| ==> s.deliveries[i].revision < s.deliveries[j].revision)
  }

  predicate Ordered(s: State) { AllBound(s) && InLine(s) && Delivered(s) }

  lemma {:induction false} StillBound(s: State, t: State, job: Job)
    requires Bound(s, job) && |s.claims| <= |t.claims| && t.claims[..|s.claims|] == s.claims
    ensures Bound(t, job)
  {
    assert t.claims[job.revision - 1] == t.claims[..|s.claims|][job.revision - 1];
  }

  lemma {:induction false} ClaimKeepsOrdered(s: State, now: nat)
    requires Ordered(s)
    ensures Ordered(ClaimFrame(s, now))
  {
    hide Bound, Due, LastDelivered;
    var t := ClaimFrame(s, now);
    if t != s {
      ClaimIsBound(s, now);
      if s.pending.Some? { StillBound(s, t, s.pending.value); }
      if Busy(s.worker) { StillBound(s, t, s.worker.job); WorkerRevision(s); }
      assert LastDelivered(t) == LastDelivered(s) by { SameDeliveries(s, t); }
    }
  }

  lemma {:induction false} SameDeliveries(s: State, t: State)
    requires s.deliveries == t.deliveries
    ensures LastDelivered(s) == LastDelivered(t)
  {
  }

  lemma {:induction false} WorkerRevision(s: State)
    requires AllBound(s) && Busy(s.worker)
    ensures s.worker.job.revision <= s.revision
  {
  }

  lemma {:induction false} ClaimIsBound(s: State, now: nat)
    requires ClaimFrame(s, now) != s && |s.claims| == s.revision
    ensures var t := ClaimFrame(s, now);
            t.preparing.Some? && Bound(t, t.preparing.value) && t.claims[..|s.claims|] == s.claims
  {
  }

  lemma {:induction false} WorkKeepsOrdered(s: State, o: Outcome)
    requires Ordered(s)
    ensures Ordered(WorkerStep(s, o))
  {
    hide Bound, Delivered, LastDelivered;
    var t := WorkerStep(s, o);
    BoundSame(s, t);
    if s.worker.Sending? {
      HandedOver(s, t);
    } else {
      SameDeliveries(s, t);
      DeliveredSame(s, t);
    }
  }

  lemma {:induction false} BoundSame(s: State, t: State)
    requires s.claims == t.claims
    ensures forall job :: Bound(s, job) <==> Bound(t, job)
  {
  }

  lemma {:induction false} DeliveredSame(s: State, t: State)
    requires Delivered(s) && s.deliveries == t.deliveries && s.claims == t.claims
    ensures Delivered(t)
  {
  }

  lemma {:induction false} HandedOver(s: State, t: State)
    requires s.worker.Sending? && Bound(s, s.worker.job) && Delivered(s) && LastDelivered(s) < s.worker.job.revision
    requires t.claims == s.claims
    requires t.deliveries == s.deliveries + [Delivery(s.worker.job.sender, s.worker.job.revision)]
    ensures Delivered(t) && LastDelivered(t) == s.worker.job.revision <= |s.claims|
  {
    forall i | 0 <= i < |s.deliveries| ensures s.deliveries[i].revision < s.worker.job.revision {
      assert i < |s.deliveries| - 1 ==> s.deliveries[i].revision < s.deliveries[|s.deliveries| - 1].revision;
    }
  }

  lemma {:induction false} NextKeepsOrdered(s: State, a: Action)
    requires Ordered(s)
    ensures Ordered(Next(s, a))
  {
    hide WorkerStep, ClaimFrame, Bound, Delivered, LastDelivered, Current;
    var t := Next(s, a);
    match a {
      case ClaimAt(now) => ClaimKeepsOrdered(s, now);
      case Work(o) => WorkKeepsOrdered(s, o);
      case _ => BoundSame(s, t); SameDeliveries(s, t); DeliveredSame(s, t);
    }
  }

  // ---- Spacing ----

  /** Two frames of one generation are claimed at least a second apart, and the time of the newest
      claim of this generation is remembered. */
  predicate Spaced(s: State) {
    && (forall i :: 0 <= i < |s.claims| ==> s.claims[i].generation <= s.generation)
    && (forall i, j :: 0 <= i < j < |s.claims| && s.claims[i].generation == s.claims[j].generation ==>
          s.claims[i].now + SPACING <= s.claims[j].now)
    && (forall i :: 0 <= i < |s.claims| && s.claims[i].generation == s.generation ==>
          s.lastPrepare.Some? && s.claims[i].now <= s.lastPrepare.value)
  }

  lemma {:induction false} ClaimKeepsSpaced(s: State, now: nat)
    requires Spaced(s)
    ensures Spaced(ClaimFrame(s, now))
  {
  }

  lemma {:induction false} OthersKeepClaims(s: State, a: Action)
    requires !a.ClaimAt?
    ensures var t := Next(s, a);
            && t.claims == s.claims
            && ((t.generation == s.generation && t.lastPrepare == s.lastPrepare) || t.generation == s.generation + 1)
  {
  }

  lemma {:induction false} NextKeepsSpaced(s: State, a: Action)
    requires Spaced(s)
    ensures Spaced(Next(s, a))
  {
    hide WorkerStep, ClaimFrame, FinishPreparing, Invalidated, SetSender, Stopped;
    if a.ClaimAt? { ClaimKeepsSpaced(s, a.now); } else { OthersKeepClaims(s, a); }
  }

  // ---- Whole runs ----

  predicate Inv(s: State) { Conserved(s) && Ordered(s) && Spaced(s) }

  lemma {:induction false} NextKeepsInv(s: State, a: Action)
    requires Inv(s)
    ensures Inv(Next(s, a))
  {
    hide Conserved, Ordered, Spaced, Next;
    NextKeepsConserved(s, a);
    NextKeepsOrdered(s, a);
    NextKeepsSpaced(s, a);
  }

  lemma {:induction false} RunKeepsInv(s: State, actions: seq<Action>)
    requires Inv(s)
    ensures Inv(Run(s, actions))
    decreases |actions|
  {
    hide Inv, Next;
    if actions != [] {
      NextKeepsInv(s, actions[0]);
      RunKeepsInv(Next(s, actions[0]), actions[1..]);
    }
  }

  lemma {:induction false} NewIsInv(enabled: bool)
    ensures Inv(NewState(enabled))
  {
    hide Inv;
    EmptyIsInv(NewState(enabled));
  }

  lemma {:induction false} EmptyIsInv(s: State)
    requires s.claims == [] && s.deliveries == [] && s.revision == 0 && s.pending.None? && s.preparing.None?
    requires s.counters == Counters(0, 0, 0, 0, 0, false) && s.worker == if s.running then Waiting else Exited
    ensures Inv(s)
  {
  }

  /** In every interleaving each frame claimed is accounted for exactly once: being prepared, pending,
      at the worker, sent, failed, discarded or replaced. */
  lemma {:induction false} ClaimsAreConserved(enabled: bool, actions: seq<Action>)
    ensures var s := Run(NewState(enabled), actions);
            |s.claims| == One(s.preparing.Some?) + One(s.pending.Some?) + One(s.counters.active)
                          + s.counters.sent + s.counters.failed + s.counters.discarded + s.counters.replaced
  {
    hide Run, Ordered, Spaced, NewState;
    NewIsInv(enabled);
    RunKeepsInv(NewState(enabled), actions);
  }

  /** In every interleaving packets go to the sender installed when their frame was claimed, with
      revisions that strictly increase, and frames of one generation are claimed a second apart. */
  lemma {:induction false} PacketsReachTheirSender(enabled: bool, actions: seq<Action>)
    ensures var s := Run(NewState(enabled), actions);
            && (forall i :: 0 <= i < |s.deliveries| ==>
                  && 1 <= s.deliveries[i].revision <= |s.claims|
                  && s.deliveries[i].sender == s.claims[s.deliveries[i].revision - 1].sender)
            && (forall i, j :: 0 <= i < j < |s.deliveries| ==> s.deliveries[i].revision < s.deliveries[j].revision)
            && (forall i, j :: 0 <= i < j < |s.claims| && s.claims[i].generation == s.claims[j].generation ==>
                  s.claims[i].now + SPACING <= s.claims[j].now)
  {
    hide Run, Conserved, AllBound, InLine, NewState;
    NewIsInv(enabled);
    RunKeepsInv(NewState(enabled), actions);
  }

  // ---- Frames that nothing disturbs ----

  /** A worker that runs with a sender claims a frame exactly when none is being prepared and none of this
      generation was claimed within the last second. */
  lemma {:induction false} ClaimedWhenDue(s: State, now: nat)
    ensures var n := Next(s, ClaimAt(now));
            && (n.preparing != s.preparing || n.claims != s.claims <==>
                  && s.running && s.sender.Some? && s.preparing.None?
                  && (s.lastPrepare.None? || now >= s.lastPrepare.value + 1000))
            && (n.claims != s.claims ==>
                  && n.claims == s.claims + [Claim(s.generation, now, s.sender.value)] && n.lastPrepare == Some(now)
                  && n.preparing == Some(Job(s.generation, s.revision + 1, s.sender.value)) && n.revision == s.revision + 1)
  {
  }

  /** A new sender, or anything else that makes old work void, takes the pending image away and lets the
      next frame be claimed at once; no sender and no running worker claim any. */
  lemma {:induction false} VoidedWorkStartsAfresh(s: State, sender: Option<int>, now: nat)
    ensures var n := Next(s, Install(sender));
            && n.pending.None? && n.sender == sender && n.running == s.running && n.generation > s.generation
            && n.counters.discarded == s.counters.discarded + One(s.pending.Some?)
            && (Next(n, ClaimAt(now)).claims != n.claims <==> s.running && sender.Some? && s.preparing.None?)
    ensures var n := Next(s, Invalidate);
            && n.pending.None? && n.sender == s.sender && n.running == s.running && n.generation > s.generation
            && (Next(n, ClaimAt(now)).claims != n.claims <==> s.running && s.sender.Some? && s.preparing.None?)
    ensures var n := Next(s, Stop); !n.running && n.sender.None? && n.pending.None? && Next(n, ClaimAt(now)) == n
  {
  }

  /** From a claim on, a frame that nothing disturbs reaches its sender if it can be prepared and encoded;
      it counts as sent if the sender takes it, and as failed if anything along the way does. */
  lemma {:induction false} UndisturbedFrameArrives(s: State, now: nat, prepared: bool, o: Outcome)
    requires s.running && s.sender.Some? && (s.lastPrepare.None? || now >= s.lastPrepare.value + 1000)
    requires s.preparing.None? && s.pending.None? && s.worker.Waiting?
    ensures var claimed := Next(Next(s, ClaimAt(now)), Prepared(prepared));
            var done := WorkedOff(claimed, o, 5);
            var arrives := prepared && o.encoded;
            && done.worker.Waiting? && done.pending.None? && done.preparing.None?
            && done.deliveries == s.deliveries + (if arrives then [Delivery(s.sender.value, s.revision + 1)] else [])
            && done.counters.sent == s.counters.sent + One(arrives && o.taken && !o.thrown)
            && done.counters.failed == s.counters.failed + One(!(arrives && o.taken && !o.thrown))
            && done.counters.submitted == s.counters.submitted + One(prepared)
            && done.counters.discarded == s.counters.discarded && done.counters.replaced == s.counters.replaced
  {
    hide WorkedOff;
    var c := Next(Next(s, ClaimAt(now)), Prepared(prepared));
    WorkedOffAgain(c, o, 5);
    var c1 := WorkerStep(c, o);
    WorkedOffAgain(c1, o, 4);
    var c2 := WorkerStep(c1, o);
    WorkedOffAgain(c2, o, 3);
    var c3 := WorkerStep(c2, o);
    WorkedOffAgain(c3, o, 2);
    var c4 := WorkerStep(c3, o);
    WorkedOffAgain(c4, o, 1);
    WorkedOffAgain(WorkerStep(c4, o), o, 0);
  }

  /** Up to so many steps of the worker, until it waits with nothing to do. */
  function WorkedOff(s: State, o: Outcome, steps: nat): State
    decreases steps
  {
    if steps == 0 || (s.worker.Waiting? && s.pending.None?) then s else WorkedOff(WorkerStep(s, o), o, steps - 1)
  }

  lemma WorkedOffAgain(s: State, o: Outcome, steps: nat)
    ensures WorkedOff(s, o, steps) == if steps == 0 || (s.worker.Waiting? && s.pending.None?) then s
                                      else WorkedOff(WorkerStep(s, o), o, steps - 1)
  {
  }

  // ---- Stopping ----

  /** How many worker steps are left after a stop. */
  function StepsLeft(w: Worker): nat {
    match w
    case Exited => 0
    case Waiting => 1
    case Finishing(_, _, _) => 2
    case _ => 3
  }

  function WorkerSteps(actions: seq<Action>): nat
    decreases |actions|
  {
    if actions == [] then 0 else One(actions[0].Work?) + WorkerSteps(actions[1..])
  }

  predicate AtRest(s: State) { !s.running && s.pending.None? }

  /** The packet that the worker is sending when it takes its next step. */
  function BeingSent(w: Worker): seq<Delivery> {
    if w.Sending? then [Delivery(w.job.sender, w.job.revision)] else []
  }

  lemma {:induction false} RestStep(s: State, a: Action)
    requires AtRest(s)
    ensures var n := Next(s, a);
            && AtRest(n) && n.claims == s.claims
            && StepsLeft(n.worker) == Max(0, StepsLeft(s.worker) - One(a.Work?))
            && n.deliveries + BeingSent(n.worker) == s.deliveries + BeingSent(s.worker)
            && (a.Work? ==> BeingSent(n.worker) == []) && (!a.Work? ==> n.deliveries == s.deliveries)
  {
  }

  lemma {:induction false} RestRuns(s: State, actions: seq<Action>)
    requires AtRest(s)
    ensures var n := Run(s, actions);
            && AtRest(n) && n.claims == s.claims
            && StepsLeft(n.worker) == Max(0, StepsLeft(s.worker) - WorkerSteps(actions))
            && n.deliveries == s.deliveries + if WorkerSteps(actions) > 0 then BeingSent(s.worker) else []
    decreases |actions|
  {
    hide Next, BeingSent, AtRest, StepsLeft;
    if actions != [] {
      RestStep(s, actions[0]);
      RestRuns(Next(s, actions[0]), actions[1..]);
    }
  }

  /** After a stop, whatever is called and installed afterwards: nothing is claimed or pending again,
      the worker exits with the third of its own steps at the latest, exactly when it has none left,
      and nothing is handed over but the packet that was already being sent. */
  lemma {:induction false} StopEnds(s: State, actions: seq<Action>)
    ensures var n := Run(Next(s, Stop), actions);
            && !n.running && n.pending.None? && n.claims == s.claims
            && (n.worker.Exited? <==> WorkerSteps(actions) >= StepsLeft(s.worker))
            && n.deliveries == s.deliveries + if WorkerSteps(actions) > 0 then BeingSent(s.worker) else []
  {
    RestRuns(Next(s, Stop), actions);
  }

  /** Work of an older generation, or of a stopped worker, is never counted as sent. */
  lemma {:induction false} StaleWorkIsDiscarded(s: State, o: Outcome)
    requires s.worker.Finishing? && !Current(s, s.worker.job)
    ensures var n := WorkerStep(s, o);
            n.counters == Discard(s.counters).(active := false) && n.worker == Waiting
  {
  }
}
