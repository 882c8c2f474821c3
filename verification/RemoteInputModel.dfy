/** Remote input on the Controller, as values: what is queued, what counts as pressed, what has been
    handed to the control link, and the Host that folds it. */
module RemoteInputModel {
  import opened Basics

  const QUEUE_CAPACITY: nat := 256
  const BATCH_LIMIT: nat := 48
  const ACK_CAPACITY: nat := 256
  const MAX_EVENTS: nat := 64
  const MAX_KEYS: nat := 64
  const MAX_WHEEL: int := 12000

  type Word = x: int | 0 <= x < 0x1_0000

  datatype Position = Position(x: Word, y: Word)

  datatype Button = Left | Right | Middle | X1 | X2

  datatype Event =
    | KeyDown(scan: Word, virtualKey: Word, extended: bool, repeated: bool)
    | KeyUp(scan: Word, virtualKey: Word, extended: bool)
    | Move(at: Position)
    | ButtonDown(at: Position, button: Button)
    | ButtonUp(at: Position, button: Button)
    | Wheel(at: Position, delta: int)
    | HorizontalWheel(at: Position, delta: int)

  /** A held key: its scan code, plus bit 16 when it is the extended one. */
  type Key = x: int | 0 <= x < 0x2_0000

  function NormalizeExtended(scan: Word, extended: bool): bool { extended && scan != 0x2A && scan != 0x36 }

  function KeyOf(scan: Word, extended: bool): Key { scan + if NormalizeExtended(scan, extended) then 0x1_0000 else 0 }

  /** A key in a snapshot: fifteen bits of scan code, and the extended flag as the top bit. */
  function Encode(key: Key): Word { key % 0x8000 + if key >= 0x1_0000 then 0x8000 else 0 }

  function Decode(code: Word): Key { KeyOf(code % 0x8000, code >= 0x8000) }

  function Codes(keys: set<Key>): set<Word> { set k | k in keys :: Encode(k) }

  function Decoded(codes: set<Word>): set<Key> { set c | c in codes && c % 0x8000 != 0 :: Decode(c) }

  // ---- Messages ----

  datatype Message =
    | Batch(sequence: nat, geometry: nat, events: seq<Event>)
    | StateSync(sequence: nat, geometry: nat, codes: set<Word>, buttons: set<Button>)
    | ReleaseAll

  predicate ValidEvent(e: Event) {
    match e
    case KeyDown(scan, vk, _, _) => 1 <= scan <= 0xFF && vk <= 0xFF
    case KeyUp(scan, vk, _) => 1 <= scan <= 0xFF && vk <= 0xFF
    case Wheel(_, delta) => delta != 0 && -MAX_WHEEL <= delta <= MAX_WHEEL
    case HorizontalWheel(_, delta) => delta != 0 && -MAX_WHEEL <= delta <= MAX_WHEEL
    case _ => true
  }

  predicate AllValid(events: seq<Event>) { forall e :: e in events ==> ValidEvent(e) }

  /** What the protocol's own check lets through; anything else is lost behind the control link. */
  predicate ValidMessage(m: Message) {
    match m
    case Batch(s, g, events) => s != 0 && g != 0 && 0 < |events| <= MAX_EVENTS && AllValid(events)
    case StateSync(s, g, codes, _) =>
      s != 0 && g != 0 && |codes| <= MAX_KEYS && forall c :: c in codes ==> 1 <= c % 0x8000 <= 0xFF
    case ReleaseAll => true
  }

  // ---- The Host, as far as what it holds ----

  datatype Host = Host(keys: set<Key>, buttons: set<Button>, pointer: Option<Position>)

  const NOTHING_HELD := Host({}, {}, None)

  function Feel(h: Host, e: Event): Host {
    match e
    case KeyDown(scan, _, extended, _) => h.(keys := h.keys + {KeyOf(scan, extended)})
    case KeyUp(scan, _, extended) => h.(keys := h.keys - {KeyOf(scan, extended)})
    case Move(at) => h.(pointer := Some(at))
    case ButtonDown(at, b) => h.(buttons := h.buttons + {b}, pointer := Some(at))
    case ButtonUp(at, b) => h.(buttons := h.buttons - {b}, pointer := Some(at))
    case Wheel(at, _) => h.(pointer := Some(at))
    case HorizontalWheel(at, _) => h.(pointer := Some(at))
  }

  function FeelAll(h: Host, events: seq<Event>): Host
    decreases |events|
  {
    if events == [] then h else FeelAll(Feel(h, events[0]), events[1..])
  }

  /** A snapshot only ever releases. */
  function Intersect(h: Host, codes: set<Word>, buttons: set<Button>): Host {
    h.(keys := h.keys * Decoded(codes), buttons := h.buttons * buttons)
  }

  function Receive(h: Host, m: Message): Host {
    if !ValidMessage(m) then h
    else match m
      case Batch(_, _, events) => FeelAll(h, events)
      case StateSync(_, _, codes, buttons) => Intersect(h, codes, buttons)
      case ReleaseAll => h.(keys := {}, buttons := {})
  }

  // ---- The capture ----

  datatype Reason =
    | WindowInactive | HiddenOrMinimized | GeometryTransaction
    | LocalUiFocus | WorkspaceTransfer | CaptureRegionChange

  /** The capture-region handshake: the change asked for, the revision the Host applied for it, and
      the newest revision a displayed frame carried. */
  datatype Region = Region(pending: nat, applied: nat, presented: nat)

  datatype AckKind = BatchAck | EmptySyncAck | StateSyncAck

  datatype Ack = Ack(sequence: nat, kind: AckKind)

  datatype Capture = Capture(
    active: bool, flags: set<Reason>, releaseSent: bool, geometry: nat, region: Region,
    critical: seq<Event>, latest: Option<Event>,
    keys: set<Key>, buttons: set<Button>, pointer: Option<Position>,
    sequence: nat, acks: seq<Ack>)

  /** What has happened: every batch and snapshot the link took and every release of everything tried
      as control ended, what the Host held after the batches and snapshots taken since control last
      started, the events offered and the events handed over since the queue was last cleared, and the
      acknowledgements reported. */
  datatype History = History(
    sent: seq<Message>, host: Host, offered: seq<Event>, delivered: seq<Event>, reported: seq<Ack>)

  datatype World = World(c: Capture, h: History)

  const NEW_WORLD := World(
    Capture(false, {}, false, 0, Region(0, 0, 0), [], None, {}, {}, None, 0, []),
    History([], NOTHING_HELD, [], [], []))

  /** Whether the control link takes the message with a given sequence number. */
  type Link = nat -> bool

  predicate Forwarding(c: Capture) { c.active && c.flags == {} }

  function Waiting(latest: Option<Event>): seq<Event> { if latest.Some? then [latest.value] else [] }

  function Queued(c: Capture): seq<Event> { c.critical + Waiting(c.latest) }

  function Cleared(w: World): World {
    World(w.c.(critical := [], latest := None, keys := {}, buttons := {}, pointer := None),
          w.h.(offered := [], delivered := []))
  }

  function Taken(h: History, m: Message): History {
    h.(sent := h.sent + [m], host := Receive(h.host, m), delivered := h.delivered + if m.Batch? then m.events else [])
  }

  /** A release of everything that was sent as control ended; nobody asks whether it was taken. */
  function Tried(h: History): History { h.(sent := h.sent + [ReleaseAll]) }

  function Paused(w: World, notify: bool): World {
    var c := w.c.(active := false, flags := {}, releaseSent := false, region := Region(0, 0, 0));
    var h := if notify && w.c.active then Tried(w.h) else w.h;
    var cleared := Cleared(World(c, h));
    cleared.(c := cleared.c.(acks := []))
  }

  function KindOf(m: Message): AckKind {
    if m.Batch? then BatchAck
    else if m.StateSync? && m.codes == {} && m.buttons == {} then EmptySyncAck
    else StateSyncAck
  }

  /** Sends a batch or a snapshot; a message that cannot be remembered or is not taken ends control. */
  function Sent(w: World, m: Message, link: Link): World
    requires !m.ReleaseAll?
  {
    if |w.c.acks| == ACK_CAPACITY then Paused(w, true)
    else
      var w1 := w.(c := w.c.(acks := w.c.acks + [Ack(m.sequence, KindOf(m))]));
      if link(m.sequence) then w1.(h := Taken(w1.h, m)) else Paused(w1, true)
  }

  /** The next batch: critical events in order and, if there is room, the waiting move. */
  function BatchEvents(c: Capture): seq<Event> {
    var n := Min(BATCH_LIMIT, |c.critical|);
    c.critical[..n] + if n < BATCH_LIMIT then Waiting(c.latest) else []
  }

  function AfterBatch(c: Capture): Capture {
    var n := Min(BATCH_LIMIT, |c.critical|);
    c.(critical := c.critical[n..], latest := if n < BATCH_LIMIT then None else c.latest, sequence := c.sequence + 1)
  }

  function FlushBatch(w: World, link: Link): World {
    if !Forwarding(w.c) || BatchEvents(w.c) == [] then w
    else Sent(w.(c := AfterBatch(w.c)), Batch(w.c.sequence + 1, w.c.geometry, BatchEvents(w.c)), link)
  }

  /** Batches until the queue is empty or control ends. */
  function Drained(w: World, link: Link): World
    decreases if Forwarding(w.c) then |Queued(w.c)| else 0
  {
    if Forwarding(w.c) && Queued(w.c) != [] then Drained(FlushBatch(w, link), link) else w
  }

  function Snapshot(c: Capture): Message {
    StateSync(c.sequence + 1, c.geometry, Codes(c.keys), c.buttons)
  }

  function SendStateSync(w: World, duringTransfer: bool, link: Link): World {
    if !w.c.active || (!duringTransfer && WorkspaceTransfer in w.c.flags) then w
    else
      var d := Drained(w, link);
      if !d.c.active then d
      else Sent(d.(c := d.c.(sequence := d.c.sequence + 1)), Snapshot(d.c), link)
  }

  function Flagged(w: World, reason: Reason, on: bool): World {
    w.(c := w.c.(flags := if on then w.c.flags + {reason} else w.c.flags - {reason}))
  }

  /** Suspending for the first reason releases everything the Host holds. */
  function SetSuspension(w: World, reason: Reason, on: bool, link: Link): World {
    if (reason in w.c.flags) == on then w
    else
      var w1 := Flagged(w, reason, on);
      var w2 := if w1.c.active && on && !w1.c.releaseSent
                then var s := SendStateSync(Cleared(w1), reason == WorkspaceTransfer, link); s.(c := s.c.(releaseSent := true))
                else w1;
      if w2.c.flags == {} then w2.(c := w2.c.(releaseSent := false)) else w2
  }

  /** Starting control, given whether the canvas, the frame and the keyboard hook are there. */
  function Activate(w: World, ready: bool, hidden: bool, inactive: bool): World {
    if w.c.active || !ready || w.c.geometry == 0 then w
    else
      var retained := w.c.flags * {GeometryTransaction, WorkspaceTransfer, CaptureRegionChange};
      var flags := retained + (if hidden then {HiddenOrMinimized} else {}) + (if inactive then {WindowInactive} else {});
      var cleared := Cleared(w.(c := w.c.(active := true, flags := flags, releaseSent := false)));
      World(cleared.c.(acks := []), cleared.h.(host := NOTHING_HELD))
  }

  // ---- Queueing ----

  function Offered(w: World, e: Event): World { w.(h := w.h.(offered := w.h.offered + [e])) }

  function EnqueueCritical(w: World, e: Event): World {
    if !Forwarding(w.c) then w
    else if |Queued(w.c)| >= QUEUE_CAPACITY then Paused(w, true)
    else Offered(w.(c := w.c.(critical := Queued(w.c) + [e], latest := None)), e)
  }

  function EnqueueMove(w: World, at: Position): World {
    if !Forwarding(w.c) then w else Offered(w.(c := w.c.(latest := Some(Move(at)))), Move(at))
  }

  function KeyEvent(w: World, down: bool, scan: Word, virtualKey: Word, extended: bool): World {
    if !Forwarding(w.c) then w
    else
      var ext := NormalizeExtended(scan, extended);
      var key := KeyOf(scan, extended);
      var e := if down then KeyDown(scan, virtualKey, ext, key in w.c.keys) else KeyUp(scan, virtualKey, ext);
      EnqueueCritical(w.(c := w.c.(keys := if down then w.c.keys + {key} else w.c.keys - {key})), e)
  }

  function MouseMove(w: World, at: Option<Position>): World {
    if !Forwarding(w.c) || at.None? then w
    else EnqueueMove(w.(c := w.c.(pointer := at)), at.value)
  }

  /** Where a button event happens: where the mouse is over the frame, or for the release of a held
      button outside it, where the pointer last was. */
  function ButtonPosition(c: Capture, press: bool, button: Option<Button>, at: Option<Position>): Option<Position> {
    if at.None? && !press && button.Some? && button.value in c.buttons then c.pointer else at
  }

  function MouseButton(w: World, press: bool, button: Option<Button>, at: Option<Position>): World {
    var place := ButtonPosition(w.c, press, button, at);
    if !Forwarding(w.c) || button.None? || place.None? || (!press && button.value !in w.c.buttons) then w
    else
      var b := button.value;
      if press then EnqueueCritical(w.(c := w.c.(buttons := w.c.buttons + {b}, pointer := place)), ButtonDown(place.value, b))
      else EnqueueCritical(w.(c := w.c.(buttons := w.c.buttons - {b})), ButtonUp(place.value, b))
  }

  function WheelTurn(w: World, at: Option<Position>, dx: int, dy: int): World {
    if !Forwarding(w.c) || at.None? then w
    else
      var w1 := w.(c := w.c.(pointer := at));
      var w2 := if dy != 0 then EnqueueCritical(w1, Wheel(at.value, dy)) else w1;
      if dx != 0 then EnqueueCritical(w2, HorizontalWheel(at.value, dx)) else w2
  }

  /** A local shortcut lets go of everything on the Host without ending control. */
  function LetGo(w: World, link: Link): World {
    if !Forwarding(w.c) then w else SendStateSync(Cleared(w), false, link)
  }

  // ---- The capture-region handshake ----

  function WithRegion(w: World, r: Region): World { w.(c := w.c.(region := r)) }

  function BeginRegion(w: World, revision: nat, link: Link): World {
    if revision == 0 then w
    else SetSuspension(WithRegion(w, Region(revision, 0, w.c.region.presented)), CaptureRegionChange, true, link)
  }

  function CompleteRegion(w: World, link: Link): World {
    var r := w.c.region;
    if r.pending == 0 || r.applied == 0 || r.presented < r.applied then w
    else SetSuspension(WithRegion(w, Region(0, 0, r.presented)), CaptureRegionChange, false, link)
  }

  function ConfirmRegion(w: World, request: nat, revision: nat, link: Link): World {
    if request == 0 || request != w.c.region.pending || revision == 0 then w
    else CompleteRegion(WithRegion(w, w.c.region.(applied := revision)), link)
  }

  function RejectRegion(w: World, revision: nat, link: Link): World {
    if revision != w.c.region.pending then w
    else SetSuspension(WithRegion(w, Region(0, 0, w.c.region.presented)), CaptureRegionChange, false, link)
  }

  function PresentRegion(w: World, revision: nat, link: Link): World {
    CompleteRegion(World(w.c.(geometry := revision, region := w.c.region.(presented := revision)), w.h), link)
  }

  // ---- Acknowledgements ----

  /** How many of the remembered messages a cumulative acknowledgement covers. */
  function Covered(acks: seq<Ack>, sequence: nat): (n: nat)
    ensures n <= |acks|
    decreases |acks|
  {
    if acks == [] || acks[0].sequence > sequence then 0 else 1 + Covered(acks[1..], sequence)
  }

  function Acknowledge(w: World, sequence: nat): World {
    var n := Covered(w.c.acks, sequence);
    World(w.c.(acks := w.c.acks[n..]), w.h.(reported := w.h.reported + w.c.acks[..n]))
  }

  // ---- Runs ----

  datatype Action =
    | Start(ready: bool, hidden: bool, inactive: bool)
    | Pause(notify: bool)
    | Suspend(reason: Reason, on: bool)
    | Key(down: bool, scan: Word, virtualKey: Word, extended: bool)
    | PointerMove(at: Option<Position>)
    | PointerButton(press: bool, button: Option<Button>, at: Option<Position>)
    | PointerWheel(at: Option<Position>, dx: int, dy: int)
    | FlushTimer
    | SyncTimer
    | Shortcut
    | SetGeometry(revision: nat)
    | BeginChange(revision: nat)
    | ConfirmChange(request: nat, revision: nat)
    | RejectChange(revision: nat)
    | PresentFrame(revision: nat)
    | AckUpTo(sequence: nat)

  function Next(w: World, a: Action, link: Link): World {
    match a
    case Start(ready, hidden, inactive) => Activate(w, ready, hidden, inactive)
    case Pause(notify) => Paused(w, notify)
    case Suspend(reason, on) => SetSuspension(w, reason, on, link)
    case Key(down, scan, vk, extended) => KeyEvent(w, down, scan, vk, extended)
    case PointerMove(at) => MouseMove(w, at)
    case PointerButton(press, button, at) => MouseButton(w, press, button, at)
    case PointerWheel(at, dx, dy) => WheelTurn(w, at, dx, dy)
    case FlushTimer => FlushBatch(w, link)
    case SyncTimer => SendStateSync(w, false, link)
    case Shortcut => LetGo(w, link)
    case SetGeometry(revision) => w.(c := w.c.(geometry := revision))
    case BeginChange(revision) => BeginRegion(w, revision, link)
    case ConfirmChange(request, revision) => ConfirmRegion(w, request, revision, link)
    case RejectChange(revision) => RejectRegion(w, revision, link)
    case PresentFrame(revision) => PresentRegion(w, revision, link)
    case AckUpTo(sequence) => Acknowledge(w, sequence)
  }

  function Run(w: World, actions: seq<Action>, link: Link): World
    decreases |actions|
  {
    if actions == [] then w else Run(Next(w, actions[0], link), actions[1..], link)
  }
}
