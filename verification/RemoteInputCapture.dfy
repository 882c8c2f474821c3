/** The remote input capture and its acknowledgement tracker as objects. Every method takes the state
    to exactly what the model's function of the old state says. */
module RemoteInputCapture {
  import opened Basics
  import opened Model = RemoteInputModel
  import Proofs = RemoteInputProofs

  class InputAckTracker {
    var pending: seq<Ack>

    constructor ()
      ensures pending == []
    {
      pending := [];
    }

    method Remember(sequence: nat, kind: AckKind) returns (remembered: bool)
      modifies this
      ensures remembered == (|old(pending)| != ACK_CAPACITY)
      ensures pending == if remembered then old(pending) + [Ack(sequence, kind)] else old(pending)
    {
      if |pending| == ACK_CAPACITY { return false; }
      pending := pending + [Ack(sequence, kind)];
      remembered := true;
    }

    /** Reports, oldest first, the remembered messages a cumulative acknowledgement covers. */
    method Acknowledge(sequence: nat) returns (reported: seq<Ack>)
      modifies this
      ensures reported + pending == old(pending) && |reported| == Covered(old(pending), sequence)
    {
      reported := [];
      while pending != [] && pending[0].sequence <= sequence
        invariant reported + pending == old(pending)
        invariant |reported| + Covered(pending, sequence) == Covered(old(pending), sequence)
        decreases |pending|
      {
        var front := pending[0];
        pending := pending[1..];
        reported := reported + [front];
      }
    }

    method Clear()
      modifies this
      ensures pending == []
    {
      pending := [];
    }
  }

  /** A flush in a drain makes progress: fewer events are queued, or input is no longer forwarded. */
  lemma FlushShrinks(w: World, link: Link)
    requires Forwarding(w.c) && Queued(w.c) != []
    ensures var r := FlushBatch(w, link); !Forwarding(r.c) || |Queued(r.c)| < |Queued(w.c)|
  {
    Proofs.BatchSplitsQueue(w.c);
  }

  class ControllerRemoteInputCapture {
    const tracker: InputAckTracker
    var active: bool
    var flags: set<Reason>
    var releaseSent: bool
    var geometry: nat
    var pendingRegion: nat
    var appliedRegion: nat
    var presentedRegion: nat
    var critical: seq<Event>
    var latest: Option<Event>
    var keys: set<Key>
    var buttons: set<Button>
    var pointer: Option<Position>
    var sequence: nat
    ghost var history: History

    ghost function Value(): World
      reads this, tracker
    {
      World(Capture(active, flags, releaseSent, geometry, Region(pendingRegion, appliedRegion, presentedRegion),
                    critical, latest, keys, buttons, pointer, sequence, tracker.pending), history)
    }

    constructor ()
      ensures Value() == NEW_WORLD && fresh(tracker)
    {
      tracker := new InputAckTracker();
      active := false;
      flags := {};
      releaseSent := false;
      geometry := 0;
      pendingRegion := 0;
      appliedRegion := 0;
      presentedRegion := 0;
      critical := [];
      latest := None;
      keys := {};
      buttons := {};
      pointer := None;
      sequence := 0;
      history := History([], NOTHING_HELD, [], [], []);
    }

    predicate InputForwarding()
      reads this
      ensures InputForwarding() == (active && flags == {})
    {
      active && flags == {}
    }

    method ClearLocalInputState()
      modifies this
      ensures Value() == Cleared(old(Value()))
    {
      critical := [];
      latest := None;
      keys := {};
      buttons := {};
      pointer := None;
      history := history.(offered := [], delivered := []);
    }

    method ResetControl()
      modifies this
      ensures Value().h == old(Value().h)
      ensures Value().c == old(Value().c).(active := false, flags := {}, releaseSent := false, region := Region(0, 0, 0))
    {
      active := false;
      releaseSent := false;
      flags := {};
      pendingRegion := 0;
      appliedRegion := 0;
      presentedRegion := 0;
    }

    method Pause(notify: bool)
      modifies this, tracker
      ensures Value() == Paused(old(Value()), notify)
    {
      hide Cleared;
      var wasActive := active;
      ResetControl();
      if notify && wasActive { history := Tried(history); }
      ClearLocalInputState();
      tracker.Clear();
    }

    method SendMessage(m: Message, link: Link) returns (sent: bool)
      requires !m.ReleaseAll?
      modifies this, tracker
      ensures sent <==> |old(tracker.pending)| != ACK_CAPACITY && link(m.sequence)
      ensures sent ==> Value() == Sent(old(Value()), m, link)
      ensures !sent ==> Paused(Value(), true) == Sent(old(Value()), m, link)
    {
      hide Receive;
      var remembered := tracker.Remember(m.sequence, KindOf(m));
      if !remembered { return false; }
      if !link(m.sequence) { return false; }
      history := Taken(history, m);
      sent := true;
    }

    method SendOrPause(m: Message, link: Link)
      requires !m.ReleaseAll?
      modifies this, tracker
      ensures Value() == Sent(old(Value()), m, link)
    {
      hide Sent, Paused;
      var sent := SendMessage(m, link);
      if !sent { Pause(true); }
    }

    method FlushBatch(link: Link)
      modifies this, tracker
      ensures Value() == Model.FlushBatch(old(Value()), link)
    {
      hide Sent;
      if !InputForwarding() { return; }
      ghost var before := Value().c;
      sequence := sequence + 1;
      var events := [];
      while critical != [] && |events| < BATCH_LIMIT
        invariant events + critical == old(critical) && |events| <= BATCH_LIMIT
        invariant Value() == old(Value()).(c := old(Value()).c.(critical := critical, sequence := old(sequence) + 1))
        decreases |critical|
      {
        events := events + [critical[0]];
        critical := critical[1..];
      }
      assert |events| == Min(BATCH_LIMIT, |old(critical)|);
      assert events == old(critical)[..|events|] && critical == old(critical)[|events|..];
      if |events| < BATCH_LIMIT && latest.Some? {
        events := events + [latest.value];
        latest := None;
      }
      assert events == BatchEvents(before) && Value().c == AfterBatch(before);
      if events == [] {
        sequence := sequence - 1;
        return;
      }
      SendOrPause(Batch(sequence, geometry, events), link);
    }

    method EncodeKeys() returns (codes: set<Word>)
      ensures codes == Codes(keys)
    {
      codes := {};
      var rest := keys;
      while rest != {}
        invariant rest <= keys && codes == Codes(keys - rest)
        decreases rest
      {
        var key :| key in rest;
        assert keys - (rest - {key}) == (keys - rest) + {key};
        rest := rest - {key};
        codes := codes + {Encode(key)};
      }
      assert keys - rest == keys;
    }

    method SendStateSync(duringTransfer: bool, link: Link)
      modifies this, tracker
      ensures Value() == Model.SendStateSync(old(Value()), duringTransfer, link)
    {
      hide Sent, Model.FlushBatch;
      if !active || (!duringTransfer && WorkspaceTransfer in flags) { return; }
      while InputForwarding() && (critical != [] || latest.Some?)
        invariant Drained(Value(), link) == Drained(old(Value()), link)
        decreases if Forwarding(Value().c) then |Queued(Value().c)| else 0
      {
        FlushShrinks(Value(), link);
        FlushBatch(link);
      }
      assert Drained(old(Value()), link) == Value();
      if !active { return; }
      var codes := EncodeKeys();
      sequence := sequence + 1;
      SendOrPause(StateSync(sequence, geometry, codes, buttons), link);
    }

    method SetLocalSuspension(reason: Reason, suspended: bool, link: Link)
      modifies this, tracker
      ensures Value() == SetSuspension(old(Value()), reason, suspended, link)
    {
      hide Model.SendStateSync, Cleared;
      var previous := flags;
      if suspended { flags := flags + {reason}; } else { flags := flags - {reason}; }
      if previous == flags {
        assert (reason in previous) == suspended;
        return;
      }
      assert (reason in previous) != suspended;
      if active && suspended && !releaseSent {
        ClearLocalInputState();
        SendStateSync(reason == WorkspaceTransfer, link);
        releaseSent := true;
      }
      if flags == {} { releaseSent := false; }
    }

    /** The suspension flags control starts with. */
    method InitialFlags(hidden: bool, inactive: bool) returns (initial: set<Reason>)
      ensures initial == flags * {GeometryTransaction, WorkspaceTransfer, CaptureRegionChange}
                         + (if hidden then {HiddenOrMinimized} else {}) + (if inactive then {WindowInactive} else {})
    {
      initial := flags * {GeometryTransaction, WorkspaceTransfer, CaptureRegionChange};
      if hidden { initial := initial + {HiddenOrMinimized}; }
      if inactive { initial := initial + {WindowInactive}; }
    }

    method Activate(ready: bool, hidden: bool, inactive: bool) returns (started: bool)
      modifies this, tracker
      ensures Value() == Model.Activate(old(Value()), ready, hidden, inactive)
      ensures started <==> old(active) || (ready && old(geometry) != 0)
    {
      hide Cleared;
      if active { return true; }
      if !ready || geometry == 0 { return false; }
      flags := InitialFlags(hidden, inactive);
      active := true;
      releaseSent := false;
      ClearLocalInputState();
      tracker.Clear();
      history := history.(host := NOTHING_HELD);
      started := true;
    }

    method EnqueueCritical(event: Event)
      modifies this, tracker
      ensures Value() == Model.EnqueueCritical(old(Value()), event)
    {
      if !InputForwarding() { return; }
      if latest.Some? {
        if |critical| >= QUEUE_CAPACITY { Pause(true); return; }
        critical := critical + [latest.value];
        latest := None;
      }
      if |critical| >= QUEUE_CAPACITY { Pause(true); return; }
      critical := critical + [event];
      history := history.(offered := history.offered + [event]);
    }

    method EnqueueMouseMove(at: Position)
      modifies this
      ensures Value() == EnqueueMove(old(Value()), at)
    {
      if !InputForwarding() { return; }
      latest := Some(Move(at));
      history := history.(offered := history.offered + [Move(at)]);
    }

    method EnqueueKeyboardEvent(down: bool, scan: Word, virtualKey: Word, extended: bool)
      modifies this, tracker
      ensures Value() == KeyEvent(old(Value()), down, scan, virtualKey, extended)
    {
      hide Model.EnqueueCritical;
      if !InputForwarding() { return; }
      var normalized := NormalizeExtended(scan, extended);
      var identity := KeyOf(scan, extended);
      var event := if down then KeyDown(scan, virtualKey, normalized, identity in keys) else KeyUp(scan, virtualKey, normalized);
      if down { keys := keys + {identity}; } else { keys := keys - {identity}; }
      EnqueueCritical(event);
    }

    method MouseMoved(at: Option<Position>)
      modifies this
      ensures Value() == MouseMove(old(Value()), at)
    {
      if !InputForwarding() { return; }
      if at.Some? {
        pointer := at;
        EnqueueMouseMove(at.value);
      }
    }

    method MouseButtonChanged(press: bool, button: Option<Button>, at: Option<Position>)
      modifies this, tracker
      ensures Value() == MouseButton(old(Value()), press, button, at)
    {
      hide Model.EnqueueCritical;
      if !InputForwarding() { return; }
      var place := at;
      var releasingTracked := !press && button.Some? && button.value in buttons;
      if place.None? && releasingTracked && pointer.Some? { place := pointer; }
      if button.Some? && place.Some? && (press || releasingTracked) {
        if press {
          buttons := buttons + {button.value};
          pointer := place;
          EnqueueCritical(ButtonDown(place.value, button.value));
        } else {
          buttons := buttons - {button.value};
          EnqueueCritical(ButtonUp(place.value, button.value));
        }
      }
    }

    method WheelTurned(at: Option<Position>, dx: int, dy: int)
      modifies this, tracker
      ensures Value() == WheelTurn(old(Value()), at, dx, dy)
    {
      hide Model.EnqueueCritical;
      if !InputForwarding() || at.None? { return; }
      pointer := at;
      if dy != 0 { EnqueueCritical(Wheel(at.value, dy)); }
      if dx != 0 { EnqueueCritical(HorizontalWheel(at.value, dx)); }
    }

    method ReleaseForShortcut(link: Link)
      modifies this, tracker
      ensures Value() == LetGo(old(Value()), link)
    {
      hide Model.SendStateSync;
      if !InputForwarding() { return; }
      ClearLocalInputState();
      SendStateSync(false, link);
    }

    method BeginCaptureRegionChange(revision: nat, link: Link)
      modifies this, tracker
      ensures Value() == BeginRegion(old(Value()), revision, link)
    {
      hide SetSuspension;
      if revision == 0 { return; }
      pendingRegion := revision;
      appliedRegion := 0;
      SetLocalSuspension(CaptureRegionChange, true, link);
    }

    method CompleteCaptureRegionChange(link: Link)
      modifies this, tracker
      ensures Value() == CompleteRegion(old(Value()), link)
    {
      hide SetSuspension;
      if pendingRegion == 0 || appliedRegion == 0 || presentedRegion < appliedRegion { return; }
      pendingRegion := 0;
      appliedRegion := 0;
      SetLocalSuspension(CaptureRegionChange, false, link);
    }

    method ConfirmCaptureRegionChange(request: nat, revision: nat, link: Link)
      modifies this, tracker
      ensures Value() == ConfirmRegion(old(Value()), request, revision, link)
    {
      hide CompleteRegion;
      if request == 0 || request != pendingRegion || revision == 0 { return; }
      appliedRegion := revision;
      CompleteCaptureRegionChange(link);
    }

    method RejectCaptureRegionChange(revision: nat, link: Link)
      modifies this, tracker
      ensures Value() == RejectRegion(old(Value()), revision, link)
    {
      hide SetSuspension;
      if revision != pendingRegion { return; }
      pendingRegion := 0;
      appliedRegion := 0;
      SetLocalSuspension(CaptureRegionChange, false, link);
    }

    method PresentCaptureRegion(revision: nat, link: Link)
      modifies this, tracker
      ensures Value() == PresentRegion(old(Value()), revision, link)
    {
      hide CompleteRegion;
      geometry := revision;
      presentedRegion := revision;
      CompleteCaptureRegionChange(link);
    }

    method AcknowledgeInputSequence(upTo: nat) returns (any: bool)
      modifies this, tracker
      ensures Value() == Acknowledge(old(Value()), upTo)
      ensures any <==> Covered(old(tracker.pending), upTo) != 0
    {
      var reported := tracker.Acknowledge(upTo);
      history := history.(reported := history.reported + reported);
      ghost var was := old(tracker.pending);
      assert reported == was[..|reported|] && tracker.pending == was[|reported|..];
      any := reported != [];
    }
  }
}
