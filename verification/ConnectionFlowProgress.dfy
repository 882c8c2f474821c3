/** What the connection progress shows: which stage is current, and what the window may offer. */
module ConnectionFlowProgress {
  import opened Basics
  import opened ConnectionFlow

  // ---- Stages ----

  /** The stage a signalling event is for: a Host publishes its description before it gets the other,
      a Controller the other way round, and a connection comes last for both. */
  function StageOf(host: bool, e: FlowEvent): nat {
    match e
    case LocalDescriptionPublished => if host then 1 else 2
    case RemoteDescriptionApplied => if host then 2 else 1
    case IceConnected => 3
    case ChannelOpened => 3
    case _ => 0
  }

  predicate Signals(e: FlowEvent) {
    e.LocalDescriptionPublished? || e.RemoteDescriptionApplied? || e.IceConnected? || e.ChannelOpened?
  }

  function Highest(host: bool, events: seq<FlowEvent>): nat
    decreases |events|
  {
    if events == [] then 0 else Max(Highest(host, events[..|events| - 1]), StageOf(host, events[|events| - 1]))
  }

  ghost predicate AfterAll(f: Flow, events: seq<FlowEvent>, r: Flow)
    decreases |events|
  {
    if events == [] then r == f
    else
      exists m :: AfterAll(f, events[..|events| - 1], m) && m.current < |m.stages| && r == Apply(m, events[|events| - 1])
  }

  /** While a connection is under way the current stage is the furthest that any signalling event since
      has been for, whatever their order and however often they come; the rest stays as it was. */
  lemma {:induction false} StageIsFurthest(f: Flow, events: seq<FlowEvent>, r: Flow)
    requires StagesInOrder(f) && (f.status.Running? || f.status.RetryWaiting? || f.status.Disconnected?)
    requires (forall e :: e in events ==> Signals(e)) && AfterAll(f, events, r)
    ensures StagesInOrder(r) && r.current == Max(f.current, Highest(f.role.Host?, events))
    ensures r.(stages := f.stages, current := f.current) == f
    decreases |events|
  {
    hide Apply, StagesInOrder, StageOf, Signals;
    if events != [] {
      var front, e := events[..|events| - 1], events[|events| - 1];
      var m :| AfterAll(f, front, m) && m.current < |m.stages| && r == Apply(m, e);
      assert e in events && forall x :: x in front ==> x in events;
      StageIsFurthest(f, front, m);
      SignalMoves(m, e);
    }
  }

  lemma SignalMoves(f: Flow, e: FlowEvent)
    requires StagesInOrder(f) && (f.status.Running? || f.status.RetryWaiting? || f.status.Disconnected?) && Signals(e)
    ensures var r := Apply(f, e);
            && StagesInOrder(r) && r.current == Max(f.current, StageOf(f.role.Host?, e))
            && r.(stages := f.stages, current := f.current) == f
  {
    hide StagesInOrder, SetStage;
    ApplyKeepsOrder(f, e);
    OrderIsRange(f);
    SetStageMoves(f, StageOf(f.role.Host?, e));
  }

  lemma SetStageMoves(f: Flow, index: nat)
    requires index < STAGES
    ensures var r := SetStage(f, index);
            r.current == Max(f.current, index) && r.(stages := f.stages, current := f.current) == f
  {
  }

  /** A first frame completes a connection under way if and only if its transport is up. */
  lemma FirstFrameCompletes(f: Flow)
    requires StagesInOrder(f) && (f.status.Running? || f.status.RetryWaiting? || f.status.Disconnected?)
    ensures var r := Apply(f, FirstFrameReady);
            if f.ready then r.status.Completed? && r.current == 3 && (forall i :: 0 <= i < 4 ==> r.stages[i] == Complete)
            else r == f
  {
  }

  /** A connection without a transport runs again at its last stage when connection and channel are both
      up, and not before; one with a transport is disconnected, back at its first stage, as soon as
      either goes. */
  lemma TransportDecides(f: Flow, connected: bool, open: bool)
    requires StagesInOrder(f) && ReadyIsLive(f) && !f.status.Idle? && !f.status.Stopping? && !f.status.Failed?
    ensures var r := ObserveTransport(f, connected, open);
            && (r.ready <==> connected && open)
            && (f.ready && !r.ready ==> r.status.Disconnected? && r.current == 0)
            && (r.ready && (f.status.Disconnected? || f.status.RetryWaiting?) ==> r.status.Running? && r.current == 3)
            && (f.ready == r.ready && !r.ready ==> r.status == f.status && r.current == f.current)
  {
  }

  // ---- What the window may offer ----

  /** A retry is offered exactly after a failure, leaving exactly while there is something to leave, a
      reason is shown only for a failure, the view is the role's, and attempts are counted from one. */
  predicate OffersTruly(f: Flow) {
    && (f.canRetry <==> f.status.Failed?)
    && (f.canExit <==> !f.status.Idle? && !f.status.Stopping?)
    && (f.detail != "" ==> f.status.Failed? || f.status.Stopping?)
    && f.view == (if f.status.Idle? then PreConnection else if f.role.Host? then WaitingView else Connecting)
    && (f.attempt == 0 <==> f.status.Idle?) && f.attempt <= MAX_ATTEMPT
  }

  lemma NextOffersTruly(f: Flow, a: Action)
    requires StagesInOrder(f) && OffersTruly(f) && f.current < |f.stages|
    ensures OffersTruly(Next(f, a))
  {
    hide StagesInOrder, SetStage;
    SetStageMoves(f, 1);
    SetStageMoves(f, 2);
    SetStageMoves(f, 3);
    SetStageMoves(f.(ready := true, status := Running), 3);
    if a.Frames? { FramesOffer(f, a.captured, a.encoded, a.transmitted); }
  }

  lemma FramesOffer(f: Flow, captured: nat, encoded: nat, transmitted: nat)
    requires OffersTruly(f) && f.current < |f.stages|
    ensures OffersTruly(ObserveHostFrames(f, captured, encoded, transmitted))
  {
    hide SetStage;
  }

  lemma {:induction false} RunOffersTruly(from: World, actions: seq<Action>, to: World)
    requires Inv(from) && OffersTruly(from.f) && Reaches(from, actions, to)
    ensures OffersTruly(to.f)
    decreases |actions|
  {
    hide OffersTruly, StagesInOrder, ReadyIsLive, BaselineHolds, Next;
    if actions != [] {
      StepKeepsInv(from, actions[0]);
      NextOffersTruly(from.f, actions[0]);
      RunOffersTruly(Step(from, actions[0]), actions[1..], to);
    }
  }

  /** In every reachable state what the window offers is true. */
  lemma {:induction false} WindowOffersTruly(actions: seq<Action>, w: World)
    requires Reaches(NEW_WORLD, actions, w)
    ensures OffersTruly(w.f)
  {
    hide Reaches;
    var start := NEW_WORLD;
    NewIsInv(start);
    RunOffersTruly(start, actions, w);
  }

  /** A failure shows its reason until something else happens; a retry counts one more attempt, as far
      as they can be counted, and begins afresh, and a start begins with the first; stopping goes on until
      the exit. */
  lemma AttemptsAreCounted(f: Flow, reason: string)
    requires StagesInOrder(f) && OffersTruly(f) && !f.status.Idle? && !f.status.Stopping?
    ensures var failed := Apply(f, FatalFailure(reason));
            && failed.status.Failed? && failed.detail == reason && !failed.ready && failed.attempt == f.attempt
            && failed.current == f.current && failed.stages[f.current] == FailedStage
    ensures var again := Apply(f, AutomaticRetry);
            && again.status.Running? && again.attempt == Min(f.attempt + 1, 0x7FFF_FFFF) && again.current == 0 && !again.ready
    ensures var waiting := Apply(f, RetryWait);
            waiting.status.RetryWaiting? && waiting.attempt == f.attempt && waiting.current == f.current && !waiting.ready
    ensures var stopping := BeginStopping(f);
            stopping.status.Stopping? && !stopping.ready && stopping.attempt == f.attempt && stopping.current == f.current
    ensures Apply(f, ExitCompleted).status.Idle?
    ensures Apply(f, Started).attempt == 1 && Apply(f, Started).status.Running? && Apply(f, Started).role == f.role
  {
  }
}
