/** The theorems about whole runs of the remote input capture. */
module RemoteInputRuns {
  import opened Basics
  import opened RemoteInputModel
  import opened Events = RemoteInputEventProofs
  import opened Proofs = RemoteInputProofs

  /** Input that the protocol's check lets through: real scan codes, ordinary wheel steps, and
      geometry revisions that have been given. */
  predicate Proper(a: Action) {
    match a
    case Key(_, scan, vk, _) => 1 <= scan <= 0xFF && vk <= 0xFF
    case PointerWheel(_, dx, dy) => ProperDelta(dx) && ProperDelta(dy)
    case SetGeometry(revision) => revision != 0
    case PresentFrame(revision) => revision != 0
    case _ => true
  }

  lemma WithRegionKeepsInv(w: World, r: Region, geometry: nat)
    ensures Core(w) ==> Core(World(w.c.(region := r, geometry := geometry), w.h))
    ensures Inv(w) && geometry != 0 ==> Inv(World(w.c.(region := r, geometry := geometry), w.h))
    ensures World(w.c.(region := r, geometry := w.c.geometry), w.h) == WithRegion(w, r)
    ensures Inv(w) ==> Inv(WithRegion(w, r))
  {
    hide Thins, SentBefore, AcksBefore, FeelAll, ProperKeys;
  }

  lemma CompleteKeepsCore(w: World, link: Link)
    requires Core(w)
    ensures Core(CompleteRegion(w, link)) && (Inv(w) ==> Inv(CompleteRegion(w, link)))
  {
    hide Core, Inv, SetSuspension, WithRegion;
    var cleared := Region(0, 0, w.c.region.presented);
    WithRegionKeepsInv(w, cleared, w.c.geometry);
    SuspensionKeepsCore(WithRegion(w, cleared), CaptureRegionChange, false, link);
    if Inv(w) { SuspensionKeepsAgreement(WithRegion(w, cleared), CaptureRegionChange, false, link); }
  }

  lemma {:induction false} HandshakeKeepsCore(w: World, a: Action, link: Link)
    requires Core(w) && (a.BeginChange? || a.ConfirmChange? || a.RejectChange? || a.PresentFrame?)
    ensures Core(Next(w, a, link)) && (Inv(w) && Proper(a) ==> Inv(Next(w, a, link)))
  {
    hide Core, Inv, SetSuspension, CompleteRegion, WithRegion;
    match a {
      case BeginChange(revision) =>
        var r := Region(revision, 0, w.c.region.presented);
        WithRegionKeepsInv(w, r, w.c.geometry);
        SuspensionKeepsCore(WithRegion(w, r), CaptureRegionChange, true, link);
        if Inv(w) { SuspensionKeepsAgreement(WithRegion(w, r), CaptureRegionChange, true, link); }
      case ConfirmChange(request, revision) =>
        var r := w.c.region.(applied := revision);
        WithRegionKeepsInv(w, r, w.c.geometry);
        CompleteKeepsCore(WithRegion(w, r), link);
      case RejectChange(revision) =>
        var r := Region(0, 0, w.c.region.presented);
        WithRegionKeepsInv(w, r, w.c.geometry);
        SuspensionKeepsCore(WithRegion(w, r), CaptureRegionChange, false, link);
        if Inv(w) { SuspensionKeepsAgreement(WithRegion(w, r), CaptureRegionChange, false, link); }
      case PresentFrame(revision) =>
        WithRegionKeepsInv(w, w.c.region.(presented := revision), revision);
        CompleteKeepsCore(World(w.c.(geometry := revision, region := w.c.region.(presented := revision)), w.h), link);
    }
  }

  lemma NextKeepsCore(w: World, a: Action, link: Link)
    requires Core(w)
    ensures Core(Next(w, a, link))
  {
    hide Thin, Numbered, SetSuspension, SendStateSync, FlushBatch, KeyEvent, MouseMove, MouseButton, WheelTurn,
         LetGo, Paused, Activate, Acknowledge, Inv;
    match a {
      case Start(ready, hidden, inactive) => ActivateKeepsInv(w, ready, hidden, inactive);
      case Pause(notify) => PausedKeepsInv(w, notify); InvIsCore(Paused(w, notify));
      case Suspend(reason, on) => SuspensionKeepsCore(w, reason, on, link);
      case Key(down, scan, vk, extended) => KeyKeepsCore(w, down, scan, vk, extended);
      case PointerMove(at) => MoveKeepsCore(w, at);
      case PointerButton(press, button, at) => ButtonKeepsCore(w, press, button, at);
      case PointerWheel(at, dx, dy) => WheelKeepsCore(w, at, dx, dy);
      case FlushTimer => FlushKeepsCore(w, link);
      case SyncTimer => SyncKeepsCore(w, false, link);
      case Shortcut => LetGoKeepsCore(w, link);
      case SetGeometry(revision) => GeometryKeepsInv(w, revision);
      case AckUpTo(sequence) => AcknowledgeKeepsInv(w, sequence);
      case _ => HandshakeKeepsCore(w, a, link);
    }
  }

  lemma GeometryKeepsInv(w: World, revision: nat)
    requires Core(w)
    ensures Core(w.(c := w.c.(geometry := revision)))
    ensures Inv(w) && revision != 0 ==> Inv(w.(c := w.c.(geometry := revision)))
  {
    hide Thins, SentBefore, AcksBefore, FeelAll, ProperKeys;
  }

  lemma NextKeepsAgreement(w: World, a: Action, link: Link)
    requires Inv(w) && Proper(a)
    ensures Inv(Next(w, a, link))
  {
    hide Core, Agrees, SetSuspension, SendStateSync, FlushBatch, KeyEvent, MouseMove, MouseButton, WheelTurn,
         LetGo, Paused, Activate, Acknowledge;
    InvIsCore(w);
    NextKeepsCore(w, a, link);
    match a {
      case Start(ready, hidden, inactive) => ActivateKeepsInv(w, ready, hidden, inactive);
      case Pause(notify) => PauseAgrees(w, notify);
      case Suspend(reason, on) => SuspensionKeepsAgreement(w, reason, on, link);
      case Key(down, scan, vk, extended) => KeyKeepsAgreement(w, down, scan, vk, extended);
      case PointerMove(at) => MoveKeepsCore(w, at);
      case PointerButton(press, button, at) => ButtonKeepsCore(w, press, button, at);
      case PointerWheel(at, dx, dy) => WheelKeepsCore(w, at, dx, dy);
      case FlushTimer => FlushKeepsAgreement(w, link);
      case SyncTimer => if w.c.active && WorkspaceTransfer !in w.c.flags { SyncAgrees(w, false, link); } else { SyncWithheld(w, link); }
      case Shortcut => LetGoKeepsCore(w, link);
      case SetGeometry(revision) => GeometryKeepsInv(w, revision);
      case AckUpTo(sequence) => AcknowledgeKeepsInv(w, sequence);
      case _ => HandshakeKeepsCore(w, a, link);
    }
  }

  lemma PauseAgrees(w: World, notify: bool)
    requires Core(w)
    ensures Inv(Paused(w, notify))
  {
    hide Thin, Shape;
    PausedKeepsInv(w, notify);
  }

  lemma SyncWithheld(w: World, link: Link)
    requires !w.c.active || WorkspaceTransfer in w.c.flags
    ensures SendStateSync(w, false, link) == w
  {
  }

  lemma {:induction false} RunKeepsCore(w: World, actions: seq<Action>, link: Link)
    requires Core(w)
    ensures Core(Run(w, actions, link))
    decreases |actions|
  {
    hide Core, Next;
    if actions != [] {
      NextKeepsCore(w, actions[0], link);
      RunKeepsCore(Next(w, actions[0], link), actions[1..], link);
    }
  }

  lemma {:induction false} RunKeepsInv(w: World, actions: seq<Action>, link: Link)
    requires Inv(w) && forall a :: a in actions ==> Proper(a)
    ensures Inv(Run(w, actions, link))
    decreases |actions|
  {
    hide Inv, Next;
    if actions != [] {
      NextKeepsAgreement(w, actions[0], link);
      RunKeepsInv(Next(w, actions[0], link), actions[1..], link);
    }
  }

  lemma {:induction false} RunKeepsRegion(w: World, actions: seq<Action>, link: Link)
    requires RegionOk(w.c) && forall a :: a in actions ==> Ordinary(a)
    ensures RegionOk(Run(w, actions, link).c)
    decreases |actions|
  {
    hide RegionOk, Next;
    if actions != [] {
      NextKeepsRegion(w, actions[0], link);
      RunKeepsRegion(Next(w, actions[0], link), actions[1..], link);
    }
  }

  lemma NewIsInv(w: World)
    requires w == NEW_WORLD
    ensures Core(w) && Inv(w) && RegionOk(w.c)
  {
    assert Thins([], [] + Queued(w.c));
  }

  /** Held-state agreement. Whatever input arrives and whenever messages are sent, suspended, let go
      or refused: while control is active, folding the queued events into what the Host holds gives
      exactly the pressed keys and buttons, and while forwarding is suspended nothing is queued and
      the Host holds nothing. */
  lemma HeldStateAgrees(actions: seq<Action>, link: Link)
    requires forall a :: a in actions ==> Proper(a)
    ensures var w := Run(NEW_WORLD, actions, link);
            && (w.c.active ==> Holds(FeelAll(w.h.host, Queued(w.c)), w.c.keys, w.c.buttons))
            && (w.c.active && !Forwarding(w.c) ==> Queued(w.c) == [] && Holds(w.h.host, {}, {}))
  {
    hide Run, SentBefore, AcksBefore, Thins, ProperKeys;
    var start := NEW_WORLD;
    NewIsInv(start);
    RunKeepsInv(start, actions, link);
  }

  /** A snapshot sent between batches, with nothing let go, presses and releases nothing. */
  lemma SnapshotChangesNothing(w: World)
    requires Inv(w) && w.c.active && Queued(w.c) == []
    ensures Receive(w.h.host, Snapshot(w.c)) == w.h.host
  {
    hide Core, ValidMessage;
    SnapshotLands(w.h.host, w.c.sequence + 1, w.c.geometry, w.c.keys, w.c.buttons);
  }

  /** Whatever the input, what is handed over and queued since the last clear is what was offered,
      in order, without some moves each directly followed by another move; so nothing but a move is
      ever dropped, and the queue stays bounded. */
  lemma SentInOrder(actions: seq<Action>, link: Link, h: Host)
    ensures var w := Run(NEW_WORLD, actions, link);
            var out := w.h.delivered + Queued(w.c);
            && Thins(w.h.offered, out) && NonMoves(out) == NonMoves(w.h.offered)
            && FeelAll(h, out) == FeelAll(h, w.h.offered)
            && |w.c.critical| <= 256
  {
    hide Run, SentBefore, AcksBefore, Thins, FeelAll, NonMoves;
    var start := NEW_WORLD;
    NewIsInv(start);
    RunKeepsCore(start, actions, link);
    var w := Run(start, actions, link);
    ThinningKeepsMeaning(w.h.offered, w.h.delivered + Queued(w.c), h);
  }

  /** Sequence numbers on sent batches and snapshots strictly increase over the whole run, and each
      acknowledgement reported is of a sent message of that kind, in order and so at most once. */
  lemma AcknowledgedOnce(actions: seq<Action>, link: Link)
    ensures var w := Run(NEW_WORLD, actions, link);
            && SentBefore(w.h.sent, w.c.sequence)
            && (forall i, j :: 0 <= i < j < |w.h.reported| ==> w.h.reported[i].sequence < w.h.reported[j].sequence)
            && (forall a :: a in w.h.reported ==> exists m :: m in w.h.sent && IsRecordOf(a, m))
  {
    hide Run, SentBefore, Thins;
    var start := NEW_WORLD;
    NewIsInv(start);
    RunKeepsCore(start, actions, link);
    var w := Run(start, actions, link);
    AcksPrefix(w.h.sent, w.h.reported, w.c.acks, w.c.sequence);
    assert w.h.reported + [] == w.h.reported;
  }

  /** After an acknowledgement nothing at or below it is pending, what it reports is exactly what was,
      and repeating it, or an older one, reports nothing. */
  lemma AcknowledgesEverythingBelow(w: World, sequence: nat, again: nat)
    requires Core(w) && again <= sequence
    ensures var r := Acknowledge(w, sequence);
            && r.h.reported + r.c.acks == w.h.reported + w.c.acks && |r.h.reported| >= |w.h.reported|
            && (forall i :: 0 <= i < |r.c.acks| ==> r.c.acks[i].sequence > sequence)
            && (forall i :: |w.h.reported| <= i < |r.h.reported| ==> r.h.reported[i].sequence <= sequence)
            && Acknowledge(r, again) == r
  {
    hide SentBefore, Thins, Covered;
    PendingInOrder(w);
    CoveredSplits(w.c.acks, sequence);
    var n, r := Covered(w.c.acks, sequence), Acknowledge(w, sequence);
    assert w.c.acks[..n] + w.c.acks[n..] == w.c.acks;
    forall i | 0 <= i < |r.c.acks| ensures r.c.acks[i].sequence > sequence { assert r.c.acks[i] == w.c.acks[n + i]; }
    NothingCovered(r, again);
  }

  lemma PendingInOrder(w: World)
    requires Core(w)
    ensures forall i, j :: 0 <= i < j < |w.c.acks| ==> w.c.acks[i].sequence < w.c.acks[j].sequence
  {
    hide SentBefore, Thins;
    var all := w.h.reported + w.c.acks;
    forall i, j | 0 <= i < j < |w.c.acks| ensures w.c.acks[i].sequence < w.c.acks[j].sequence {
      assert all[|w.h.reported| + i] == w.c.acks[i] && all[|w.h.reported| + j] == w.c.acks[j];
    }
  }

  lemma NothingCovered(w: World, sequence: nat)
    requires forall i :: 0 <= i < |w.c.acks| ==> w.c.acks[i].sequence > sequence
    ensures Acknowledge(w, sequence) == w
  {
    assert Covered(w.c.acks, sequence) == 0;
    assert w.c.acks[0..] == w.c.acks && w.h.reported + w.c.acks[..0] == w.h.reported;
  }

  /** The release of a held button is always queued, wherever the mouse is, or control ends. */
  lemma ReleaseIsQueued(w: World, b: Button, at: Option<Position>)
    requires Core(w) && Forwarding(w.c) && b in w.c.buttons
    ensures var r := MouseButton(w, false, Some(b), at);
            r.c.active ==>
              && b !in r.c.buttons && r.c.critical != []
              && r.c.critical[|r.c.critical| - 1].ButtonUp? && r.c.critical[|r.c.critical| - 1].button == b
              && |r.h.offered| == |w.h.offered| + 1
  {
  }

  /** Input is forwarded only when no change of capture region is pending. */
  lemma NoInputDuringRegionChange(actions: seq<Action>, link: Link)
    requires forall a :: a in actions ==> Ordinary(a)
    ensures var w := Run(NEW_WORLD, actions, link);
            && (Forwarding(w.c) ==> w.c.region.pending == 0)
            && (w.c.region.pending != 0 && w.c.region.applied != 0 ==> w.c.region.presented < w.c.region.applied)
  {
    hide Run;
    var start := NEW_WORLD;
    NewIsInv(start);
    RunKeepsRegion(start, actions, link);
  }

  // ---- Input the protocol refuses ----

  /** A key not yet held, pressed and flushed over a working link, is held by the Host if and only if
      its scan code is 1 to 255 and its virtual key fits a byte; otherwise the batch is lost after the
      capture has counted it as sent. */
  lemma FreshKeyArrives(w: World, scan: Word, vk: Word, extended: bool, link: Link)
    requires Inv(w) && Forwarding(w.c) && Queued(w.c) == [] && |w.c.acks| < ACK_CAPACITY
    requires link(w.c.sequence + 1) && KeyOf(scan, extended) !in w.c.keys
    ensures var r := FlushBatch(KeyEvent(w, true, scan, vk, extended), link);
            && r.c.active && Queued(r.c) == [] && KeyOf(scan, extended) in r.c.keys
            && (Holds(r.h.host, r.c.keys, r.c.buttons) <==> 1 <= scan <= 0xFF && vk <= 0xFF)
  {
    hide Core;
    var e := KeyDown(scan, vk, NormalizeExtended(scan, extended), false);
    var k := KeyEvent(w, true, scan, vk, extended);
    assert |Queued(w.c)| == 0;
    assert k.c.critical == [e] && k.c.latest == None;
    assert BatchEvents(k.c) == [e];
    FeelAllOne(w.h.host, e);
    assert AllValid([e]) <==> ValidEvent(e) by { assert e in [e]; }
  }

  /** What the protocol accepts of an event: a key with a scan code of one to 255 and a virtual key that
      fits a byte, a turn of the wheel by something, but at most 12000, and anything else. */
  predicate Accepted(e: Event) {
    && (e.KeyDown? || e.KeyUp? ==> 0 < e.scan < 256 && e.virtualKey < 256)
    && (e.Wheel? || e.HorizontalWheel? ==> e.delta != 0 && -12000 <= e.delta <= 12000)
  }

  predicate AllAccepted(events: seq<Event>) { forall i :: 0 <= i < |events| ==> Accepted(events[i]) }

  lemma AcceptedIsValid(events: seq<Event>)
    ensures AllAccepted(events) <==> AllValid(events)
  {
    if AllValid(events) { forall i | 0 <= i < |events| ensures Accepted(events[i]) { assert ValidEvent(events[i]); } }
  }

  /** What a Host makes of any message: a batch of one to 64 accepted events is felt, a snapshot of at
      most 64 keys, each with a scan code of one to 255, releases what it does not list, a release of
      everything leaves nothing held; anything else, and numbers or geometries of zero, is lost. */
  lemma HostReceives(h: Host, m: Message)
    ensures m.Batch? ==>
              var lands := m.sequence > 0 && m.geometry > 0 && 1 <= |m.events| <= 64 && AllAccepted(m.events);
              Receive(h, m) == if lands then FeelAll(h, m.events) else h
    ensures m.StateSync? && SnapshotLost(m) ==> Receive(h, m) == h
    ensures m.StateSync? && !SnapshotLost(m) ==>
              && Receive(h, m).pointer == h.pointer && Receive(h, m).buttons == h.buttons * m.buttons
              && forall k: Key :: k in Receive(h, m).keys <==> k in h.keys && Lists(m.codes, k)
    ensures m.ReleaseAll? ==> Receive(h, m) == Host({}, {}, h.pointer)
  {
    hide FeelAll, KeyOf;
    if m.Batch? { AcceptedIsValid(m.events); }
    if m.StateSync? && !SnapshotLost(m) { SnapshotKeeps(h, m.codes, m.buttons); }
  }

  predicate SnapshotLost(m: Message)
    requires m.StateSync?
  {
    m.sequence == 0 || m.geometry == 0 || |m.codes| > 64 || exists c :: c in m.codes && !(0 < c % 0x8000 < 256)
  }

  predicate Lists(codes: set<Word>, k: Key) { exists c: Word :: c in codes && KeyOf(c % 0x8000, c >= 0x8000) == k }

  lemma SnapshotKeeps(h: Host, codes: set<Word>, buttons: set<Button>)
    requires forall c :: c in codes ==> 1 <= c % 0x8000
    ensures forall k: Key :: k in Intersect(h, codes, buttons).keys <==> k in h.keys && Lists(codes, k)
  {
    hide KeyOf;
    forall c: Word | c in codes ensures KeyOf(c % 0x8000, c >= 0x8000) in Decoded(codes) { assert Decode(c) in Decoded(codes); }
  }

  /** Exactly when a batch taken by the link reaches the Host: if and only if every event in it is
      accepted, or the batch would change nothing. Refused or not, the capture has counted it as sent. */
  lemma BatchArrivesIff(w: World, link: Link)
    requires Forwarding(w.c) && w.c.geometry != 0 && BatchEvents(w.c) != []
    requires |w.c.acks| < ACK_CAPACITY && link(w.c.sequence + 1)
    ensures var r, events := FlushBatch(w, link), BatchEvents(w.c);
            && r.c.active && r.h.delivered == w.h.delivered + events
            && r.h.host == (if AllAccepted(events) then FeelAll(w.h.host, events) else w.h.host)
            && (r.h.host == FeelAll(w.h.host, events) <==> AllAccepted(events) || FeelAll(w.h.host, events) == w.h.host)
  {
    hide FeelAll, AllValid, AllAccepted;
    BatchSplitsQueue(w.c);
    AcceptedIsValid(BatchEvents(w.c));
  }

  /** A button pressed and then the wheel turned, flushed together over a working link: the Host holds
      the button if and only if the turn is within the protocol's limit. */
  lemma {:induction false} WheelDecidesPress(w: World, b: Button, at: Position, dy: int, link: Link)
    requires Inv(w) && Forwarding(w.c) && Queued(w.c) == [] && |w.c.acks| < ACK_CAPACITY
    requires link(w.c.sequence + 1) && b !in w.c.buttons && dy != 0
    ensures var r := FlushBatch(WheelTurn(MouseButton(w, true, Some(b), Some(at)), Some(at), 0, dy), link);
            && r.c.active && Queued(r.c) == [] && b in r.c.buttons
            && (b in r.h.host.buttons <==> ProperDelta(dy))
  {
    hide Core, FeelAll, FlushBatch, AllValid;
    assert |Queued(w.c)| == 0;
    var e, f := ButtonDown(at, b), Wheel(at, dy);
    var p := MouseButton(w, true, Some(b), Some(at));
    assert p.c.critical == [e] && p.c.latest == None;
    var q := WheelTurn(p, Some(at), 0, dy);
    assert q.c.critical == [e, f] && q.c.latest == None && q.h.host == w.h.host;
    PressAndTurn(q, e, f, link);
    NothingQueued(w);
  }

  lemma NothingQueued(w: World)
    requires Agrees(w) && w.c.active && Queued(w.c) == []
    ensures w.c.geometry != 0 && w.h.host.buttons == w.c.buttons
  {
  }

  lemma PressAndTurn(w: World, e: Event, f: Event, link: Link)
    requires e.ButtonDown? && f.Wheel? && f.delta != 0 && w.c.critical == [e, f] && w.c.latest == None
    requires Forwarding(w.c) && w.c.geometry != 0 && |w.c.acks| < ACK_CAPACITY && link(w.c.sequence + 1)
    ensures var r := FlushBatch(w, link);
            && r.c.active && Queued(r.c) == [] && r.c.buttons == w.c.buttons
            && r.h.host.buttons == (if ProperDelta(f.delta) then w.h.host.buttons + {e.button} else w.h.host.buttons)
  {
    hide FeelAll;
    assert BatchEvents(w.c) == [e] + [f];
    BatchArrivesIff(w, link);
    assert f in [e] + [f];
    FeelAllConcat(w.h.host, [e], [f]);
    FeelAllOne(w.h.host, e);
    FeelAllOne(Feel(w.h.host, e), f);
  }
}
