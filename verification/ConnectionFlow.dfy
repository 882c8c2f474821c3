/** The connection progress a window shows: stages, retries, and when a connection counts as complete. */
module ConnectionFlow {
  import opened Basics

  const STAGES: nat := 4
  const MAX_ATTEMPT: nat := 0x7FFF_FFFF

  datatype View = PreConnection | Connecting | WaitingView
  datatype Role = Controller | Host
  datatype Stage = Pending | Current | Complete | FailedStage

  datatype Status = Idle | Running | RetryWaiting | Failed | Disconnected | Completed | Stopping

  datatype FlowEvent =
    | Started | LocalDescriptionPublished | RemoteDescriptionApplied | IceConnected | ChannelOpened
    | FirstFrameReady | RetryWait | AutomaticRetry | FatalFailure(detail: string) | ExitCompleted

  datatype Flow = Flow(
    view: View, role: Role, status: Status, stages: seq<Stage>, current: nat, attempt: nat, detail: string,
    canRetry: bool, canExit: bool, ready: bool,
    lastEncoded: nat, lastTransmitted: nat, baseEncoded: nat, baseTransmitted: nat)

  function NoStages(): seq<Stage> { [Pending, Pending, Pending, Pending] }
  function FirstStage(): seq<Stage> { [Current, Pending, Pending, Pending] }
  function AllStages(): seq<Stage> { [Complete, Complete, Complete, Complete] }

  function Reset(): Flow {
    Flow(PreConnection, Controller, Idle, NoStages(), 0, 0, "", false, false, false, 0, 0, 0, 0)
  }

  function Start(role: Role): Flow {
    Reset().(role := role, view := if role.Host? then WaitingView else Connecting, status := Running, attempt := 1,
             canExit := true, stages := FirstStage())
  }

  function StagesAt(n: nat): (stages: seq<Stage>)
    requires n < STAGES
    ensures |stages| == STAGES
  {
    seq(STAGES, i requires 0 <= i < STAGES => if i < n then Complete else if i == n then Current else Pending)
  }

  /** Moves on to a later stage; never back. */
  function SetStage(f: Flow, index: nat): Flow {
    var n := Min(index, STAGES - 1);
    if n <= f.current then f else f.(stages := StagesAt(n), current := n)
  }

  function CompleteFlow(f: Flow): Flow {
    f.(stages := AllStages(), current := STAGES - 1, status := Completed, detail := "", canRetry := false, canExit := true)
  }

  /** The transport is down: frames counted so far no longer count. */
  function Down(f: Flow): Flow { f.(ready := false, baseEncoded := f.lastEncoded, baseTransmitted := f.lastTransmitted) }

  function Apply(f: Flow, e: FlowEvent): Flow
    requires f.current < |f.stages|
  {
    if e.ExitCompleted? then Reset()
    else if e.Started? then Start(f.role)
    else if f.status.Idle? || f.status.Stopping? then f
    else if e.AutomaticRetry? then
      Down(f).(status := Running, attempt := if f.attempt < MAX_ATTEMPT then Max(1, f.attempt + 1) else f.attempt,
               detail := "", canRetry := false, canExit := true, current := 0, stages := FirstStage())
    else if e.RetryWait? then Down(f).(status := RetryWaiting, detail := "", canRetry := false, canExit := true)
    else if e.FatalFailure? then
      f.(ready := false, status := Failed, detail := e.detail, canRetry := true, canExit := true,
         stages := f.stages[f.current := FailedStage])
    else if f.status.Failed? || f.status.Completed? then f
    else
      match e
      case LocalDescriptionPublished => SetStage(f, if f.role.Host? then 1 else 2)
      case RemoteDescriptionApplied => SetStage(f, if f.role.Host? then 2 else 1)
      case IceConnected => SetStage(f, 3)
      case ChannelOpened => SetStage(f, 3)
      case _ => if f.ready then CompleteFlow(f) else f
  }

  function ObserveTransport(f: Flow, connected: bool, open: bool): Flow {
    if f.status.Idle? || f.status.Stopping? || f.status.Failed? then f
    else if connected && open then
      var up := f.(ready := true);
      if f.status.Disconnected? || f.status.RetryWaiting? then SetStage(up.(status := Running), 3) else up
    else if f.ready then
      Down(f).(status := Disconnected, current := 0, stages := FirstStage(), canRetry := false, detail := "")
    else Down(f)
  }

  /** New totals; one that has gone down counts from nothing. */
  function Counted(f: Flow, encoded: nat, transmitted: nat): Flow {
    f.(baseEncoded := if encoded < f.lastEncoded then 0 else f.baseEncoded,
       baseTransmitted := if transmitted < f.lastTransmitted then 0 else f.baseTransmitted,
       lastEncoded := encoded, lastTransmitted := transmitted)
  }

  function ObserveHostFrames(f: Flow, captured: nat, encoded: nat, transmitted: nat): Flow
    requires f.current < |f.stages|
  {
    var counted := Counted(f, encoded, transmitted);
    if !f.ready then counted.(baseEncoded := encoded, baseTransmitted := transmitted)
    else if f.role.Host? && captured > 0 && encoded > counted.baseEncoded && transmitted > counted.baseTransmitted then
      Apply(counted, FirstFrameReady)
    else counted
  }

  function BeginStopping(f: Flow): Flow {
    if f.status.Idle? then f else f.(status := Stopping, ready := false, canRetry := false, canExit := false)
  }

  // ---- Runs ----

  datatype Action =
    | StartAs(role: Role)
    | Happens(event: FlowEvent)
    | Transport(connected: bool, open: bool)
    | Frames(captured: nat, encoded: nat, transmitted: nat)
    | Stop
    | Clear

  function Next(f: Flow, a: Action): Flow
    requires f.current < |f.stages|
  {
    match a
    case StartAs(role) => Start(role)
    case Happens(event) => Apply(f, event)
    case Transport(connected, open) => ObserveTransport(f, connected, open)
    case Frames(captured, encoded, transmitted) => ObserveHostFrames(f, captured, encoded, transmitted)
    case Stop => BeginStopping(f)
    case Clear => Reset()
  }

  /** The frame counters when the transport was last not ready, and whether each has gone down since. */
  datatype Mark = Mark(encoded: nat, transmitted: nat, encodedFell: bool, transmittedFell: bool)

  datatype World = World(f: Flow, m: Mark)

  const NEW_WORLD := World(Reset(), Mark(0, 0, false, false))

  function Marked(before: Flow, after: Flow, m: Mark): Mark {
    if !after.ready then Mark(after.lastEncoded, after.lastTransmitted, false, false)
    else m.(encodedFell := m.encodedFell || after.lastEncoded < before.lastEncoded,
            transmittedFell := m.transmittedFell || after.lastTransmitted < before.lastTransmitted)
  }

  function Step(w: World, a: Action): World
    requires w.f.current < |w.f.stages|
  {
    World(Next(w.f, a), Marked(w.f, Next(w.f, a), w.m))
  }

  // ---- Invariants ----

  /** Outside Idle everything before the current stage is complete and everything after it pending. */
  predicate StagesInOrder(f: Flow) {
    && |f.stages| == STAGES && f.current < STAGES
    && (!f.status.Idle? ==>
          && (forall i :: 0 <= i < f.current ==> f.stages[i] == Complete)
          && (forall i :: f.current < i < STAGES ==> f.stages[i] == Pending)
          && f.stages[f.current] != Pending)
    && (f.status.Idle? ==> f.stages == NoStages() && f.current == 0)
    && (f.status.Failed? ==> f.stages[f.current] == FailedStage)
    && (f.status.Completed? ==> f.stages == AllStages() && f.current == STAGES - 1)
  }

  predicate ReadyIsLive(f: Flow) {
    && (f.status.Completed? ==> f.ready)
    && (f.ready ==> f.status.Running? || f.status.Completed?)
    && (!f.status.Idle? ==> f.attempt >= 1)
  }

  /** The baseline is what was counted when the transport was last not ready, or zero after a fall. */
  predicate BaselineHolds(w: World) {
    && (!w.f.ready && !w.f.status.Failed? && !w.f.status.Stopping? ==>
          w.f.baseEncoded == w.f.lastEncoded && w.f.baseTransmitted == w.f.lastTransmitted)
    && (!w.f.ready ==> w.m == Mark(w.f.lastEncoded, w.f.lastTransmitted, false, false))
    && (w.f.ready ==> w.f.baseEncoded == if w.m.encodedFell then 0 else w.m.encoded)
    && (w.f.ready ==> w.f.baseTransmitted == if w.m.transmittedFell then 0 else w.m.transmitted)
  }

  predicate Inv(w: World) { StagesInOrder(w.f) && ReadyIsLive(w.f) && BaselineHolds(w) }

  lemma SetStageKeepsOrder(f: Flow, index: nat)
    requires StagesInOrder(f) && !f.status.Idle? && !f.status.Failed? && !f.status.Completed?
    ensures StagesInOrder(SetStage(f, index))
  {
  }

  lemma ApplyKeepsInv(w: World, e: FlowEvent)
    requires Inv(w)
    ensures Inv(Step(w, Happens(e)))
  {
    hide SetStage, StagesInOrder;
    ApplyKeepsOrder(w.f, e);
    OrderIsRange(w.f);
    SetStageFrame(w.f, 1);
    SetStageFrame(w.f, 2);
    SetStageFrame(w.f, 3);
  }

  lemma OrderIsRange(f: Flow)
    requires StagesInOrder(f)
    ensures f.current < |f.stages|
  {
  }

  lemma ApplyKeepsOrder(f: Flow, e: FlowEvent)
    requires StagesInOrder(f)
    ensures StagesInOrder(Apply(f, e))
  {
    hide SetStage;
    SetStageFrame(f, 1);
    SetStageFrame(f, 2);
    SetStageFrame(f, 3);
    if !f.status.Idle? && !f.status.Failed? && !f.status.Completed? {
      SetStageKeepsOrder(f, 1);
      SetStageKeepsOrder(f, 2);
      SetStageKeepsOrder(f, 3);
    }
  }

  lemma SetStageFrame(f: Flow, index: nat)
    ensures var r := SetStage(f, index); r == f.(stages := r.stages, current := r.current) && r.current >= f.current
  {
  }

  lemma TransportKeepsInv(w: World, connected: bool, open: bool)
    requires Inv(w)
    ensures Inv(Step(w, Transport(connected, open)))
  {
    hide SetStage;
    var up := w.f.(ready := true, status := Running);
    SetStageFrame(up, 3);
    if w.f.status.Disconnected? || w.f.status.RetryWaiting? { SetStageKeepsOrder(up, 3); }
  }

  lemma FramesKeepInv(w: World, captured: nat, encoded: nat, transmitted: nat)
    requires Inv(w)
    ensures Inv(Step(w, Frames(captured, encoded, transmitted)))
  {
    hide Apply, StagesInOrder;
    var counted := Counted(w.f, encoded, transmitted);
    SameStages(w.f, counted);
    SameStages(w.f, counted.(baseEncoded := encoded, baseTransmitted := transmitted));
    FirstFrame(counted);
  }

  lemma FirstFrame(f: Flow)
    requires f.current < |f.stages| && (f.ready ==> f.status.Running? || f.status.Completed?)
    ensures f.ready && f.status.Running? ==> Apply(f, FirstFrameReady) == CompleteFlow(f)
    ensures f.ready && f.status.Completed? ==> Apply(f, FirstFrameReady) == f
    ensures StagesInOrder(CompleteFlow(f))
  {
    hide SetStage;
  }

  lemma SameStages(f: Flow, g: Flow)
    requires StagesInOrder(f) && f.stages == g.stages && f.current == g.current && f.status == g.status
    ensures StagesInOrder(g) && g.current < |g.stages|
  {
  }

  lemma {:induction false} StepKeepsInv(w: World, a: Action)
    requires Inv(w)
    ensures Inv(Step(w, a))
  {
    hide Apply, ObserveTransport, ObserveHostFrames;
    match a {
      case Happens(e) => ApplyKeepsInv(w, e);
      case Transport(connected, open) => TransportKeepsInv(w, connected, open);
      case Frames(captured, encoded, transmitted) => FramesKeepInv(w, captured, encoded, transmitted);
      case _ =>
    }
  }

  /** What needs no record of the past: the stages in order, and a complete connection with its transport. */
  predicate Sound(f: Flow) { StagesInOrder(f) && ReadyIsLive(f) }

  lemma ApplyKeepsSound(f: Flow, e: FlowEvent)
    requires Sound(f)
    ensures Sound(Apply(f, e))
  {
    hide SetStage, StagesInOrder;
    ApplyKeepsOrder(f, e);
    SetStageFrame(f, 1);
    SetStageFrame(f, 2);
    SetStageFrame(f, 3);
  }

  lemma TransportKeepsSound(f: Flow, connected: bool, open: bool)
    requires Sound(f)
    ensures Sound(ObserveTransport(f, connected, open))
  {
    hide SetStage;
    var up := f.(ready := true, status := Running);
    SetStageFrame(up, 3);
    if f.status.Disconnected? || f.status.RetryWaiting? { SetStageKeepsOrder(up, 3); }
  }

  lemma FramesKeepSound(f: Flow, captured: nat, encoded: nat, transmitted: nat)
    requires Sound(f)
    ensures Sound(ObserveHostFrames(f, captured, encoded, transmitted))
  {
    hide Apply, StagesInOrder;
    var counted := Counted(f, encoded, transmitted);
    SameStages(f, counted);
    SameStages(f, counted.(baseEncoded := encoded, baseTransmitted := transmitted));
    FirstFrame(counted);
  }

  lemma StoppingKeepsSound(f: Flow)
    requires Sound(f)
    ensures Sound(BeginStopping(f))
  {
  }

  ghost predicate Reaches(from: World, actions: seq<Action>, to: World)
    decreases |actions|
  {
    if actions == [] then to == from
    else from.f.current < |from.f.stages| && Reaches(Step(from, actions[0]), actions[1..], to)
  }

  lemma {:induction false} RunKeepsInv(from: World, actions: seq<Action>, to: World)
    requires Inv(from) && Reaches(from, actions, to)
    ensures Inv(to)
    decreases |actions|
  {
    hide Inv, Step;
    if actions != [] {
      StepKeepsInv(from, actions[0]);
      RunKeepsInv(Step(from, actions[0]), actions[1..], to);
    }
  }

  lemma {:induction false} EveryRunExists(from: World, actions: seq<Action>) returns (to: World)
    requires Inv(from)
    ensures Reaches(from, actions, to)
    decreases |actions|
  {
    hide Step;
    if actions == [] {
      to := from;
    } else {
      StepKeepsInv(from, actions[0]);
      to := EveryRunExists(Step(from, actions[0]), actions[1..]);
    }
  }

  lemma NewIsInv(w: World)
    requires w == NEW_WORLD
    ensures Inv(w)
  {
  }

  /** In every reachable state a complete connection has its transport, and the stages are those
      before the current one complete and those after it pending. */
  lemma FlowIsSafe(actions: seq<Action>, w: World)
    requires Reaches(NEW_WORLD, actions, w)
    ensures StagesInOrder(w.f)
    ensures w.f.status.Completed? ==> w.f.ready
    ensures w.f.ready ==> w.f.status.Running? || w.f.status.Completed?
  {
    hide Reaches, StagesInOrder;
    var start := NEW_WORLD;
    NewIsInv(start);
    RunKeepsInv(start, actions, w);
  }

  /** Exactly when frames complete a connection: it runs as a Host with its transport, something was
      captured, and it has encoded and transmitted frames since its transport was last not ready, each
      counter above its value then, or above zero if it has gone down since. */
  lemma HostCompletionNeedsNewFrames(actions: seq<Action>, w: World, captured: nat, encoded: nat, transmitted: nat)
    requires Reaches(NEW_WORLD, actions, w) && w.f.current < |w.f.stages| && !w.f.status.Completed?
    ensures var fell := w.m.encodedFell || encoded < w.f.lastEncoded;
            var fell' := w.m.transmittedFell || transmitted < w.f.lastTransmitted;
            ObserveHostFrames(w.f, captured, encoded, transmitted).status.Completed? <==>
              && w.f.ready && w.f.role.Host? && captured > 0
              && encoded > (if fell then 0 else w.m.encoded) && transmitted > (if fell' then 0 else w.m.transmitted)
  {
    hide Reaches, SetStage;
    var start := NEW_WORLD;
    NewIsInv(start);
    RunKeepsInv(start, actions, w);
  }

  /** A stopping connection only leaves that state by an exit, a reset or a new start. */
  lemma StoppingStays(w: World, a: Action)
    requires Inv(w) && w.f.status.Stopping?
    ensures var n := Step(w, a).f;
            n.status.Stopping? <==> !(a.StartAs? || a.Clear? || (a.Happens? && (a.event.Started? || a.event.ExitCompleted?)))
  {
    hide SetStage;
  }

  /** Progress is only given up by a retry, a lost transport, a new start, an exit or a reset. */
  lemma ProgressStays(w: World, a: Action)
    requires Inv(w) && Step(w, a).f.current < w.f.current
    ensures || a.StartAs? || a.Clear?
            || (a.Happens? && (a.event.Started? || a.event.ExitCompleted? || a.event.AutomaticRetry?))
            || (a.Transport? && w.f.ready && !(a.connected && a.open))
  {
    hide SetStage;
    SetStageFrame(w.f, 1);
    SetStageFrame(w.f, 2);
    SetStageFrame(w.f, 3);
    SetStageFrame(w.f.(ready := true, status := Running), 3);
  }

  /** A running connection that fails, waits for a retry and finds its transport up again runs on with
      the failure still shown if and only if it had already reached the last stage. */
  lemma FailureStaysShown(f: Flow, detail: string)
    requires StagesInOrder(f) && f.status.Running?
    ensures var failed := Apply(f, FatalFailure(detail));
            var waiting := Apply(failed, RetryWait);
            var again := ObserveTransport(waiting, true, true);
            && again.status.Running? && again.current == STAGES - 1
            && (again.stages[again.current] == FailedStage <==> f.current == STAGES - 1)
  {
  }

  // ---- The model as an object ----

  class ConnectionFlowModel {
    var view: View
    var role: Role
    var status: Status
    var stages: array<Stage>
    var current: nat
    var attempt: nat
    var detail: string
    var canRetry: bool
    var canExit: bool
    var ready: bool
    var lastEncoded: nat
    var lastTransmitted: nat
    var baseEncoded: nat
    var baseTransmitted: nat

    ghost function Value(): Flow
      reads this, stages
    {
      Flow(view, role, status, stages[..], current, attempt, detail, canRetry, canExit, ready,
           lastEncoded, lastTransmitted, baseEncoded, baseTransmitted)
    }

    ghost predicate Valid()
      reads this, stages
    {
      stages.Length == STAGES && current < STAGES
    }

    constructor ()
      ensures Valid() && Value() == Reset() && fresh(stages)
    {
      view := PreConnection;
      role := Controller;
      status := Idle;
      stages := new Stage[4](_ => Pending);
      current := 0;
      attempt := 0;
      detail := "";
      canRetry := false;
      canExit := false;
      ready := false;
      lastEncoded := 0;
      lastTransmitted := 0;
      baseEncoded := 0;
      baseTransmitted := 0;
    }

    method FillStages(stage: Stage)
      requires Valid()
      modifies stages
      ensures forall i :: 0 <= i < STAGES ==> stages[i] == stage
    {
      for i := 0 to STAGES
        invariant forall k :: 0 <= k < i ==> stages[k] == stage
      {
        stages[i] := stage;
      }
    }

    method ResetAll()
      requires Valid()
      modifies this, stages
      ensures Valid() && stages == old(stages) && Value() == Reset()
    {
      FillStages(Pending);
      view := PreConnection;
      role := Controller;
      status := Idle;
      current := 0;
      attempt := 0;
      detail := "";
      canRetry := false;
      canExit := false;
      ready := false;
      lastEncoded := 0;
      lastTransmitted := 0;
      baseEncoded := 0;
      baseTransmitted := 0;
    }

    method StartAs(newRole: Role)
      requires Valid()
      modifies this, stages
      ensures Valid() && stages == old(stages) && Value() == Start(newRole)
    {
      ResetAll();
      role := newRole;
      view := if newRole.Host? then WaitingView else Connecting;
      status := Running;
      attempt := 1;
      canExit := true;
      stages[0] := Current;
    }

    method SetCurrentStage(index: nat)
      requires Valid()
      modifies this`current, stages
      ensures Valid() && Value() == SetStage(old(Value()), index)
    {
      var n := Min(index, STAGES - 1);
      if n <= current { return; }
      for i := 0 to STAGES
        invariant forall k :: 0 <= k < i ==> stages[k] == StagesAt(n)[k]
      {
        stages[i] := if i < n then Complete else if i == n then Current else Pending;
      }
      current := n;
      assert stages[..] == StagesAt(n);
    }

    method TransportDown()
      requires Valid()
      modifies this`ready, this`baseEncoded, this`baseTransmitted
      ensures Valid() && Value() == Down(old(Value()))
    {
      ready := false;
      baseEncoded := lastEncoded;
      baseTransmitted := lastTransmitted;
    }

    /** Back to the first stage. */
    method RestartStages()
      requires Valid()
      modifies this`current, stages
      ensures Valid() && Value() == old(Value()).(current := 0, stages := FirstStage())
    {
      current := 0;
      FillStages(Pending);
      stages[0] := Current;
      assert stages[..] == FirstStage();
    }

    method CompleteAll()
      requires Valid()
      modifies this, stages
      ensures Valid() && stages == old(stages) && Value() == CompleteFlow(old(Value()))
    {
      FillStages(Complete);
      current := STAGES - 1;
      status := Completed;
      detail := "";
      canRetry := false;
      canExit := true;
      assert stages[..] == AllStages();
    }

    method Retry()
      requires Valid() && !status.Idle? && !status.Stopping?
      modifies this, stages
      ensures Valid() && stages == old(stages) && Value() == Apply(old(Value()), AutomaticRetry)
    {
      hide FirstStage;
      status := Running;
      TransportDown();
      if attempt < MAX_ATTEMPT { attempt := Max(1, attempt + 1); }
      detail := "";
      canRetry := false;
      canExit := true;
      RestartStages();
    }

    method Fail(reason: string)
      requires Valid() && !status.Idle? && !status.Stopping?
      modifies this, stages
      ensures Valid() && stages == old(stages) && Value() == Apply(old(Value()), FatalFailure(reason))
    {
      ready := false;
      status := Failed;
      detail := reason;
      canRetry := true;
      canExit := true;
      ghost var before := stages[..];
      stages[current] := FailedStage;
      assert stages[..] == before[current := FailedStage];
    }

    method WaitForRetry()
      requires Valid() && !status.Idle? && !status.Stopping?
      modifies this
      ensures Valid() && stages == old(stages) && Value() == Apply(old(Value()), RetryWait)
    {
      TransportDown();
      status := RetryWaiting;
      detail := "";
      canRetry := false;
      canExit := true;
    }

    method ApplyEvent(event: FlowEvent)
      requires Valid()
      modifies this, stages
      ensures Valid() && stages == old(stages) && Value() == Apply(old(Value()), event)
      ensures old(Sound(Value())) ==> Sound(Value())
    {
      hide SetStage, CompleteFlow, Down, Reset, Start, FirstStage, Sound;
      if Sound(Value()) { ApplyKeepsSound(Value(), event); }
      if event.ExitCompleted? { ResetAll(); return; }
      if event.Started? { StartAs(role); return; }
      if status.Idle? || status.Stopping? { return; }
      if event.AutomaticRetry? { Retry(); return; }
      if event.RetryWait? { WaitForRetry(); return; }
      if event.FatalFailure? { Fail(event.detail); return; }
      if status.Failed? || status.Completed? { return; }
      match event {
        case LocalDescriptionPublished => SetCurrentStage(if role.Host? then 1 else 2);
        case RemoteDescriptionApplied => SetCurrentStage(if role.Host? then 2 else 1);
        case IceConnected => SetCurrentStage(3);
        case ChannelOpened => SetCurrentStage(3);
        case FirstFrameReady => if ready { CompleteAll(); }
      }
    }

    method TransportSeen(connected: bool, open: bool)
      requires Valid()
      modifies this, stages
      ensures Valid() && stages == old(stages) && Value() == ObserveTransport(old(Value()), connected, open)
      ensures old(Sound(Value())) ==> Sound(Value())
    {
      hide SetStage, FirstStage, Sound;
      if Sound(Value()) { TransportKeepsSound(Value(), connected, open); }
      if status.Idle? || status.Stopping? || status.Failed? { return; }
      var up := connected && open;
      if !up && ready {
        status := Disconnected;
        RestartStages();
        canRetry := false;
        detail := "";
      }
      ready := up;
      if !up {
        TransportDown();
      } else if status.Disconnected? || status.RetryWaiting? {
        status := Running;
        SetCurrentStage(3);
      }
    }

    method HostFramesSeen(captured: nat, encoded: nat, transmitted: nat)
      requires Valid()
      modifies this, stages
      ensures Valid() && stages == old(stages)
      ensures Value() == ObserveHostFrames(old(Value()), captured, encoded, transmitted)
      ensures old(Sound(Value())) ==> Sound(Value())
    {
      hide Apply, Sound;
      if Sound(Value()) { FramesKeepSound(Value(), captured, encoded, transmitted); }
      if encoded < lastEncoded { baseEncoded := 0; }
      if transmitted < lastTransmitted { baseTransmitted := 0; }
      lastEncoded := encoded;
      lastTransmitted := transmitted;
      if !ready {
        baseEncoded := encoded;
        baseTransmitted := transmitted;
      } else if role.Host? && captured > 0 && encoded > baseEncoded && transmitted > baseTransmitted {
        ApplyEvent(FirstFrameReady);
      }
    }

    method StopFlow()
      requires Valid()
      modifies this
      ensures Valid() && stages == old(stages) && Value() == BeginStopping(old(Value()))
      ensures old(Sound(Value())) ==> Sound(Value())
    {
      hide Sound;
      if Sound(Value()) { StoppingKeepsSound(Value()); }
      if status.Idle? { return; }
      status := Stopping;
      ready := false;
      canRetry := false;
      canExit := false;
    }
  }
}
