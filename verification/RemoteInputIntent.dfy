/** What the user does with keyboard and mouse while control forwards it, told from the actions alone,
    and that this is what the capture sends. */
module RemoteInputIntent {
  import opened Basics
  import opened RemoteInputModel
  import opened Events = RemoteInputEventProofs
  import opened Proofs = RemoteInputProofs
  import opened Runs = RemoteInputRuns

  /** What is held down, where the pointer last was on the frame, and the events this amounts to, since
      forwarding last began afresh. A key is its scan code and whether it is the extended one. */
  datatype Hand = Hand(keys: set<(Word, bool)>, buttons: set<Button>, pointer: Option<Position>, events: seq<Event>)

  const AT_REST := Hand({}, {}, None, [])

  /** The two shift keys have no extended form. */
  predicate ExtendedKey(scan: Word, extended: bool) { extended && scan != 42 && scan != 54 }

  function KeyMoved(h: Hand, down: bool, scan: Word, vk: Word, extended: bool): Hand {
    var key := (scan, ExtendedKey(scan, extended));
    if down then h.(keys := h.keys + {key}, events := h.events + [KeyDown(scan, vk, key.1, key in h.keys)])
    else h.(keys := h.keys - {key}, events := h.events + [KeyUp(scan, vk, key.1)])
  }

  /** A press counts on the frame only; a release counts for a button held, off the frame where the
      pointer last was. */
  function ButtonMoved(h: Hand, press: bool, b: Button, at: Option<Position>): Hand {
    if press then
      if at.None? then h
      else h.(buttons := h.buttons + {b}, pointer := at, events := h.events + [ButtonDown(at.value, b)])
    else
      var place := if at.Some? then at else h.pointer;
      if b !in h.buttons || place.None? then h
      else h.(buttons := h.buttons - {b}, events := h.events + [ButtonUp(place.value, b)])
  }

  /** Turned both ways at once, the vertical turn comes first. */
  function WheelMoved(h: Hand, at: Position, dx: int, dy: int): Hand {
    h.(pointer := Some(at),
       events := h.events + (if dy != 0 then [Wheel(at, dy)] else []) + (if dx != 0 then [HorizontalWheel(at, dx)] else []))
  }

  function Did(h: Hand, a: Action): Hand {
    match a
    case Key(down, scan, vk, extended) => KeyMoved(h, down, scan, vk, extended)
    case PointerMove(at) => if at.None? then h else h.(pointer := at, events := h.events + [Move(at.value)])
    case PointerButton(press, button, at) => if button.None? then h else ButtonMoved(h, press, button.value, at)
    case PointerWheel(at, dx, dy) => if at.None? then h else WheelMoved(h, at.value, dx, dy)
    case _ => h
  }

  /** The hand goes to rest when forwarding stops and when a local shortcut lets go of everything. */
  function Follow(h: Hand, a: Action, forwarding: bool): Hand {
    if !forwarding || a.Shortcut? then AT_REST else Did(h, a)
  }

  function Track(w: World, h: Hand, actions: seq<Action>, link: Link): Hand
    decreases |actions|
  {
    if actions == [] then h
    else
      var n := Next(w, actions[0], link);
      Track(n, Follow(h, actions[0], Forwarding(n.c)), actions[1..], link)
  }

  // ---- The capture follows the hand ----

  predicate SameKeys(keys: set<Key>, held: set<(Word, bool)>) {
    forall k: Key :: k in keys <==> (k % 0x1_0000, k >= 0x1_0000) in held
  }

  predicate Matches(w: World, h: Hand) {
    && w.h.offered == h.events && w.c.buttons == h.buttons && w.c.pointer == h.pointer
    && SameKeys(w.c.keys, h.keys) && (!Forwarding(w.c) ==> h == AT_REST)
  }

  predicate Blank(w: World) { w.h.offered == [] && w.c.keys == {} && w.c.buttons == {} && w.c.pointer == None }

  predicate SameHand(w: World, r: World) {
    r.h.offered == w.h.offered && r.c.keys == w.c.keys && r.c.buttons == w.c.buttons && r.c.pointer == w.c.pointer
  }

  /** What has been sent beyond `before` carries a geometry, releases of everything aside. */
  predicate SentUnder(before: seq<Message>, after: seq<Message>, geometry: nat) {
    && before <= after
    && forall i :: |before| <= i < |after| ==> after[i].ReleaseAll? || after[i].geometry == geometry
  }

  lemma SentOn(a: seq<Message>, b: seq<Message>, c: seq<Message>, geometry: nat)
    requires SentUnder(a, b, geometry) && SentUnder(b, c, geometry)
    ensures SentUnder(a, c, geometry)
  {
  }

  /** Nothing is done by hand: all stays as it was, or control has ended. */
  predicate Continues(w: World, r: World) {
    && r.c.geometry == w.c.geometry && SentUnder(w.h.sent, r.h.sent, w.c.geometry)
    && ((r.c.active == w.c.active && r.c.flags == w.c.flags && SameHand(w, r)) || (!r.c.active && Blank(r)))
  }

  lemma ContinuesOn(w: World, r: World, t: World)
    requires Continues(w, r) && Continues(r, t)
    ensures Continues(w, t)
  {
  }

  lemma SentContinues(w: World, m: Message, link: Link)
    requires !m.ReleaseAll? && m.geometry == w.c.geometry
    ensures Continues(w, Sent(w, m, link))
  {
    hide Receive;
  }

  lemma FlushContinues(w: World, link: Link)
    ensures Continues(w, FlushBatch(w, link))
  {
    hide Sent, BatchEvents;
    if Forwarding(w.c) && BatchEvents(w.c) != [] {
      SentContinues(w.(c := AfterBatch(w.c)), Batch(w.c.sequence + 1, w.c.geometry, BatchEvents(w.c)), link);
    }
  }

  lemma {:induction false} DrainContinues(w: World, link: Link)
    ensures Continues(w, Drained(w, link))
    decreases if Forwarding(w.c) then |Queued(w.c)| else 0
  {
    hide Continues;
    if Forwarding(w.c) && Queued(w.c) != [] {
      FlushContinues(w, link);
      DrainContinues(FlushBatch(w, link), link);
      ContinuesOn(w, FlushBatch(w, link), Drained(w, link));
    } else {
      ContinuesSame(w);
    }
  }

  lemma ContinuesSame(w: World)
    ensures Continues(w, w)
  {
  }

  lemma SyncContinues(w: World, duringTransfer: bool, link: Link)
    ensures Continues(w, SendStateSync(w, duringTransfer, link))
  {
    hide Drained, Sent, Continues, Codes;
    ContinuesSame(w);
    DrainContinues(w, link);
    var d := Drained(w, link);
    var e := d.(c := d.c.(sequence := d.c.sequence + 1));
    ContinuesCounted(d, e);
    SentContinues(e, Snapshot(d.c), link);
    ContinuesOn(w, d, e);
    ContinuesOn(w, e, Sent(e, Snapshot(d.c), link));
  }

  lemma ContinuesCounted(d: World, e: World)
    requires e == d.(c := d.c.(sequence := d.c.sequence + 1))
    ensures Continues(d, e)
  {
  }

  /** Suspending leaves the hand at rest; resuming leaves it as it is. */
  lemma SuspensionContinues(w: World, reason: Reason, on: bool, link: Link)
    requires Shape(w.c) && (!Forwarding(w.c) ==> Blank(w))
    ensures var r := SetSuspension(w, reason, on, link);
            && SentUnder(w.h.sent, r.h.sent, w.c.geometry) && r.c.geometry == w.c.geometry
            && ((r == w) || Blank(r)) && (!Forwarding(r.c) ==> Blank(r))
            && (Forwarding(r.c) && Forwarding(w.c) ==> r == w)
  {
    hide SendStateSync;
    SyncContinues(Cleared(Flagged(w, reason, on)), reason == WorkspaceTransfer, link);
  }

  // ---- What is done by hand ----

  lemma Enqueued(w: World, e: Event)
    requires Forwarding(w.c)
    ensures var r := EnqueueCritical(w, e);
            && SentUnder(w.h.sent, r.h.sent, w.c.geometry) && r.c.geometry == w.c.geometry
            && if r.c.active then
                 && Forwarding(r.c) && r.h.offered == w.h.offered + [e]
                 && r.c.keys == w.c.keys && r.c.buttons == w.c.buttons && r.c.pointer == w.c.pointer
               else Blank(r)
  {
  }

  lemma KeyFollows(w: World, h: Hand, down: bool, scan: Word, vk: Word, extended: bool)
    requires Matches(w, h) && Forwarding(w.c)
    ensures var r := KeyEvent(w, down, scan, vk, extended);
            && SentUnder(w.h.sent, r.h.sent, w.c.geometry)
            && if Forwarding(r.c) then Matches(r, KeyMoved(h, down, scan, vk, extended)) else Blank(r)
  {
    hide EnqueueCritical;
    var key := KeyOf(scan, extended);
    assert (key % 0x1_0000, key >= 0x1_0000) == (scan, ExtendedKey(scan, extended));
    var keys := if down then w.c.keys + {key} else w.c.keys - {key};
    var e := if down then KeyDown(scan, vk, NormalizeExtended(scan, extended), key in w.c.keys)
             else KeyUp(scan, vk, NormalizeExtended(scan, extended));
    Enqueued(w.(c := w.c.(keys := keys)), e);
    forall k: Key ensures k in keys <==> (k % 0x1_0000, k >= 0x1_0000) in KeyMoved(h, down, scan, vk, extended).keys {
      if (k % 0x1_0000, k >= 0x1_0000) == (scan, ExtendedKey(scan, extended)) { assert k == key; }
    }
  }

  lemma ButtonFollows(w: World, h: Hand, press: bool, b: Button, at: Option<Position>)
    requires Matches(w, h) && Forwarding(w.c)
    ensures var r := MouseButton(w, press, Some(b), at);
            && SentUnder(w.h.sent, r.h.sent, w.c.geometry)
            && if Forwarding(r.c) then Matches(r, ButtonMoved(h, press, b, at)) else Blank(r)
  {
    hide EnqueueCritical, SameKeys;
    var place := ButtonPosition(w.c, press, Some(b), at);
    if place.Some? {
      if press {
        Enqueued(w.(c := w.c.(buttons := w.c.buttons + {b}, pointer := place)), ButtonDown(place.value, b));
      } else if b in w.c.buttons {
        Enqueued(w.(c := w.c.(buttons := w.c.buttons - {b})), ButtonUp(place.value, b));
      }
    }
  }

  lemma WheelFollows(w: World, h: Hand, at: Position, dx: int, dy: int)
    requires Matches(w, h) && Forwarding(w.c)
    ensures var r := WheelTurn(w, Some(at), dx, dy);
            && SentUnder(w.h.sent, r.h.sent, w.c.geometry)
            && if Forwarding(r.c) then Matches(r, WheelMoved(h, at, dx, dy)) else Blank(r)
  {
    hide EnqueueCritical, SameKeys;
    var w1 := w.(c := w.c.(pointer := Some(at)));
    if dy != 0 { Enqueued(w1, Wheel(at, dy)); }
    var w2 := if dy != 0 then EnqueueCritical(w1, Wheel(at, dy)) else w1;
    NotForwarding(w2, HorizontalWheel(at, dx));
    if Forwarding(w2.c) && dx != 0 {
      Enqueued(w2, HorizontalWheel(at, dx));
      SentOn(w.h.sent, w2.h.sent, WheelTurn(w, Some(at), dx, dy).h.sent, w.c.geometry);
    }
    assert h.events + [] == h.events;
  }

  lemma MoveFollows(w: World, h: Hand, at: Option<Position>)
    requires Matches(w, h) && Forwarding(w.c)
    ensures Matches(MouseMove(w, at), Did(h, PointerMove(at)))
    ensures MouseMove(w, at).h.sent == w.h.sent
  {
    hide SameKeys;
  }

  predicate ByHand(a: Action) { a.Key? || a.PointerMove? || a.PointerButton? || a.PointerWheel? }

  lemma IdleHand(w: World, a: Action, link: Link)
    requires ByHand(a) && !Forwarding(w.c)
    ensures Next(w, a, link) == w
  {
  }

  lemma HandFollows(w: World, h: Hand, a: Action, link: Link)
    requires Matches(w, h) && ByHand(a)
    ensures var n := Next(w, a, link);
            && SentUnder(w.h.sent, n.h.sent, w.c.geometry)
            && if Forwarding(n.c) then Matches(n, Did(h, a)) else Blank(n)
  {
    hide Matches, KeyEvent, MouseButton, WheelTurn, MouseMove, KeyMoved, ButtonMoved, WheelMoved, Blank;
    if !Forwarding(w.c) {
      IdleHand(w, a, link);
      RestIsBlank(w, h);
    } else {
      match a {
        case Key(down, scan, vk, extended) => KeyFollows(w, h, down, scan, vk, extended);
        case PointerMove(at) => MoveFollows(w, h, at); StillForwarding(w, at);
        case PointerButton(press, button, at) =>
          if button.Some? { ButtonFollows(w, h, press, button.value, at); } else { NoButton(w, press, at); }
        case PointerWheel(at, dx, dy) =>
          if at.Some? { WheelFollows(w, h, at.value, dx, dy); } else { NoWheel(w, dx, dy); }
      }
    }
  }

  lemma StillForwarding(w: World, at: Option<Position>)
    ensures Forwarding(MouseMove(w, at).c) <==> Forwarding(w.c)
  {
  }

  lemma NoButton(w: World, press: bool, at: Option<Position>)
    ensures MouseButton(w, press, None, at) == w
  {
  }

  lemma NoWheel(w: World, dx: int, dy: int)
    ensures WheelTurn(w, None, dx, dy) == w
  {
  }

  lemma RestIsBlank(w: World, h: Hand)
    requires Matches(w, h) && !Forwarding(w.c)
    ensures Blank(w)
  {
    forall k: Key ensures k !in w.c.keys {}
  }

  lemma BlankMatches(w: World)
    requires Blank(w)
    ensures Matches(w, AT_REST)
  {
  }

  /** What everything else does to the hand: nothing, or it puts it to rest. */
  lemma OtherContinues(w: World, a: Action, link: Link)
    requires Shape(w.c) && (!Forwarding(w.c) ==> Blank(w)) && !ByHand(a)
    ensures var n := Next(w, a, link);
            && SentUnder(w.h.sent, n.h.sent, w.c.geometry)
            && (!Forwarding(n.c) || a.Shortcut? ==> Blank(n))
            && (Forwarding(n.c) && !a.Shortcut? ==> SameHand(w, n))
  {
    hide SetSuspension, SendStateSync, FlushBatch, CompleteRegion;
    match a {
      case Suspend(reason, on) => SuspensionContinues(w, reason, on, link);
      case FlushTimer => FlushContinues(w, link);
      case SyncTimer => SyncContinues(w, false, link);
      case Shortcut => SyncContinues(Cleared(w), false, link);
      case BeginChange(revision) =>
        SuspensionContinues(WithRegion(w, Region(revision, 0, w.c.region.presented)), CaptureRegionChange, true, link);
      case ConfirmChange(request, revision) => CompleteContinues(WithRegion(w, w.c.region.(applied := revision)), link);
      case RejectChange(revision) =>
        SuspensionContinues(WithRegion(w, Region(0, 0, w.c.region.presented)), CaptureRegionChange, false, link);
      case PresentFrame(revision) =>
        CompleteContinues(World(w.c.(geometry := revision, region := w.c.region.(presented := revision)), w.h), link);
      case _ =>
    }
  }

  lemma CompleteContinues(w: World, link: Link)
    requires Shape(w.c) && (!Forwarding(w.c) ==> Blank(w))
    ensures var r := CompleteRegion(w, link);
            r.h.sent == w.h.sent && (!Forwarding(r.c) ==> Blank(r)) && SameHand(w, r)
  {
  }

  lemma {:induction false} NextFollows(w: World, h: Hand, a: Action, link: Link)
    requires Core(w) && Matches(w, h)
    ensures var n := Next(w, a, link);
            && Matches(n, Follow(h, a, Forwarding(n.c))) && SentUnder(w.h.sent, n.h.sent, w.c.geometry)
  {
    hide Next, Shape, Thin, Numbered, SameKeys, Blank, KeyMoved, ButtonMoved, WheelMoved;
    var n := Next(w, a, link);
    if !Forwarding(w.c) { RestIsBlank(w, h); }
    if ByHand(a) { HandFollows(w, h, a, link); } else { OtherContinues(w, a, link); }
    if !ByHand(a) && Forwarding(n.c) && !a.Shortcut? { SameHandMatches(w, n, h); }
    if Blank(n) { BlankMatches(n); }
  }

  lemma SameHandMatches(w: World, n: World, h: Hand)
    requires Matches(w, h) && SameHand(w, n) && Forwarding(n.c)
    ensures Matches(n, h)
  {
  }

  lemma {:induction false} RunFollows(w: World, h: Hand, actions: seq<Action>, link: Link)
    requires Core(w) && Matches(w, h)
    ensures Matches(Run(w, actions, link), Track(w, h, actions, link)) && Core(Run(w, actions, link))
    decreases |actions|
  {
    hide Core, Matches, Next, SentUnder;
    if actions != [] {
      var n := Next(w, actions[0], link);
      NextKeepsCore(w, actions[0], link);
      NextFollows(w, h, actions[0], link);
      RunFollows(n, Follow(h, actions[0], Forwarding(n.c)), actions[1..], link);
    }
  }

  /** Over every run the capture counts as pressed what the hand holds, and what it has handed over and
      queued since forwarding last began afresh is what the hand did, event by event in order, without
      some moves each directly followed by another move. */
  lemma {:induction false} WhatIsDoneIsSent(actions: seq<Action>, link: Link, any: Host)
    ensures var w, h := Run(NEW_WORLD, actions, link), Track(NEW_WORLD, AT_REST, actions, link);
            var out := w.h.delivered + Queued(w.c);
            && Thins(h.events, out) && NonMoves(out) == NonMoves(h.events) && FeelAll(any, out) == FeelAll(any, h.events)
            && SameKeys(w.c.keys, h.keys) && w.c.buttons == h.buttons && w.c.pointer == h.pointer
            && (!Forwarding(w.c) ==> h == AT_REST)
  {
    hide Run, Track, SentBefore, AcksBefore, Thins, FeelAll, NonMoves, SameKeys;
    var start, rest := NEW_WORLD, AT_REST;
    NewIsInv(start);
    BlankMatches(start);
    RunFollows(start, rest, actions, link);
    var w := Run(start, actions, link);
    ThinningKeepsMeaning(w.h.offered, w.h.delivered + Queued(w.c), any);
  }

  /** Every message sent carries the geometry revision the capture has at the time. */
  lemma {:induction false} MessagesCarryGeometry(actions: seq<Action>, a: Action, link: Link)
    ensures var w := Run(NEW_WORLD, actions, link);
            SentUnder(w.h.sent, Next(w, a, link).h.sent, w.c.geometry)
  {
    hide Run, Track, Core, Matches, Next, SentUnder;
    var start, rest := NEW_WORLD, AT_REST;
    NewIsInv(start);
    BlankMatches(start);
    RunFollows(start, rest, actions, link);
    NextFollows(Run(start, actions, link), Track(start, rest, actions, link), a, link);
  }

  // ---- Where the Host points ----

  /** Where the last event with a place happened. */
  function LastPlace(events: seq<Event>): Option<Position>
    decreases |events|
  {
    if events == [] then None
    else
      var e := events[|events| - 1];
      if e.KeyDown? || e.KeyUp? then LastPlace(events[..|events| - 1]) else Some(e.at)
  }

  lemma {:induction false} FeltPointer(h: Host, events: seq<Event>)
    ensures FeelAll(h, events).pointer == if LastPlace(events).Some? then LastPlace(events) else h.pointer
    decreases |events|
  {
    hide FeelAll;
    if events == [] {
      NothingFelt(h, events);
    } else {
      var front, e := events[..|events| - 1], events[|events| - 1];
      FeltPointer(h, front);
      assert front + [e] == events;
      FeelAllConcat(h, front, [e]);
      FeelAllOne(FeelAll(h, front), e);
    }
  }

  lemma NothingFelt(h: Host, events: seq<Event>)
    requires events == []
    ensures FeelAll(h, events) == h
  {
  }

  lemma {:induction false} LastPlaceConcat(a: seq<Event>, b: seq<Event>)
    ensures LastPlace(a + b) == if LastPlace(b).Some? then LastPlace(b) else LastPlace(a)
    decreases |b|
  {
    if b == [] {
      assert a + b == a;
    } else {
      assert (a + b)[..|a + b| - 1] == a + b[..|b| - 1];
      LastPlaceConcat(a, b[..|b| - 1]);
    }
  }

  /** The Host points where the last event handed over happened. */
  predicate PointedAt(h: History) { LastPlace(h.delivered).Some? ==> h.host.pointer == LastPlace(h.delivered) }

  lemma TakenPoints(h: History, m: Message)
    requires PointedAt(h) && (m.Batch? ==> ValidMessage(m))
    ensures PointedAt(Taken(h, m))
  {
    hide FeelAll, AllValid, LastPlace;
    if m.Batch? {
      FeltPointer(h.host, m.events);
      LastPlaceConcat(h.delivered, m.events);
    } else {
      assert h.delivered + [] == h.delivered;
    }
  }

  lemma SentPoints(w: World, m: Message, link: Link)
    requires PointedAt(w.h) && !m.ReleaseAll? && (m.Batch? ==> ValidMessage(m))
    ensures PointedAt(Sent(w, m, link).h)
  {
    hide Taken, ValidMessage;
    TakenPoints(w.h, m);
  }

  lemma BatchIsValid(c: Capture)
    requires c.geometry != 0 && AllValid(Queued(c)) && BatchEvents(c) != []
    ensures ValidMessage(Batch(c.sequence + 1, c.geometry, BatchEvents(c)))
  {
    BatchSplitsQueue(c);
    forall e | e in BatchEvents(c) ensures ValidEvent(e) { assert e in BatchEvents(c) + Queued(AfterBatch(c)); }
  }

  lemma FlushPoints(w: World, link: Link)
    requires Agrees(w) && PointedAt(w.h)
    ensures PointedAt(FlushBatch(w, link).h)
  {
    hide Sent, BatchEvents, PointedAt, ValidMessage, AllValid, FeelAll;
    if Forwarding(w.c) && BatchEvents(w.c) != [] {
      BatchIsValid(w.c);
      SentPoints(w.(c := AfterBatch(w.c)), Batch(w.c.sequence + 1, w.c.geometry, BatchEvents(w.c)), link);
    }
  }

  lemma {:induction false} DrainPoints(w: World, link: Link)
    requires Inv(w) && PointedAt(w.h)
    ensures PointedAt(Drained(w, link).h)
    decreases if Forwarding(w.c) then |Queued(w.c)| else 0
  {
    hide FlushBatch, Core, Agrees, PointedAt;
    if Forwarding(w.c) && Queued(w.c) != [] {
      FlushKeepsCore(w, link);
      FlushKeepsAgreement(w, link);
      FlushPoints(w, link);
      DrainPoints(FlushBatch(w, link), link);
    }
  }

  lemma SyncPoints(w: World, duringTransfer: bool, link: Link)
    requires PointedAt(w.h) && (Inv(w) || Queued(w.c) == [])
    ensures PointedAt(SendStateSync(w, duringTransfer, link).h)
  {
    hide Inv, PointedAt, Codes, Sent;
    if Inv(w) { DrainPoints(w, link); } else { assert Drained(w, link) == w; }
    var d := Drained(w, link);
    SentPoints(d.(c := d.c.(sequence := d.c.sequence + 1)), Snapshot(d.c), link);
  }

  lemma SuspensionPoints(w: World, reason: Reason, on: bool, link: Link)
    requires PointedAt(w.h)
    ensures PointedAt(SetSuspension(w, reason, on, link).h)
  {
    hide SendStateSync;
    assert Queued(Cleared(Flagged(w, reason, on)).c) == [];
    SyncPoints(Cleared(Flagged(w, reason, on)), reason == WorkspaceTransfer, link);
  }

  lemma CompletePoints(w: World, link: Link)
    requires PointedAt(w.h)
    ensures PointedAt(CompleteRegion(w, link).h)
  {
    hide SetSuspension, PointedAt;
    SuspensionPoints(WithRegion(w, Region(0, 0, w.c.region.presented)), CaptureRegionChange, false, link);
  }

  lemma {:induction false} NextPoints(w: World, a: Action, link: Link)
    requires Inv(w) && PointedAt(w.h)
    ensures PointedAt(Next(w, a, link).h)
  {
    hide SetSuspension, SendStateSync, FlushBatch, CompleteRegion, Inv;
    match a {
      case Suspend(reason, on) => SuspensionPoints(w, reason, on, link);
      case FlushTimer => InvIsCore(w); FlushPoints(w, link);
      case SyncTimer => SyncPoints(w, false, link);
      case Shortcut => assert Queued(Cleared(w).c) == []; SyncPoints(Cleared(w), false, link);
      case BeginChange(revision) =>
        SuspensionPoints(WithRegion(w, Region(revision, 0, w.c.region.presented)), CaptureRegionChange, true, link);
      case ConfirmChange(request, revision) => CompletePoints(WithRegion(w, w.c.region.(applied := revision)), link);
      case RejectChange(revision) =>
        SuspensionPoints(WithRegion(w, Region(0, 0, w.c.region.presented)), CaptureRegionChange, false, link);
      case PresentFrame(revision) =>
        CompletePoints(World(w.c.(geometry := revision, region := w.c.region.(presented := revision)), w.h), link);
      case _ =>
    }
  }

  lemma {:induction false} RunPoints(w: World, actions: seq<Action>, link: Link)
    requires Inv(w) && PointedAt(w.h) && forall a :: a in actions ==> Proper(a)
    ensures PointedAt(Run(w, actions, link).h)
    decreases |actions|
  {
    hide Inv, Next, PointedAt, Proper;
    if actions != [] {
      NextKeepsAgreement(w, actions[0], link);
      NextPoints(w, actions[0], link);
      RunPoints(Next(w, actions[0], link), actions[1..], link);
    }
  }

  lemma NothingPointedAt(h: History)
    requires h.delivered == []
    ensures PointedAt(h)
  {
  }

  /** Held-state agreement, pointer included: over every run of proper input the Host, once it has
      everything queued, holds the keys and buttons that the hand holds and points where the hand last
      did something. */
  lemma {:induction false} HostFollowsTheHand(actions: seq<Action>, link: Link)
    requires forall a :: a in actions ==> Proper(a)
    ensures var w, h := Run(NEW_WORLD, actions, link), Track(NEW_WORLD, AT_REST, actions, link);
            var felt := FeelAll(w.h.host, Queued(w.c));
            && (w.c.active ==> SameKeys(felt.keys, h.keys) && felt.buttons == h.buttons)
            && (LastPlace(h.events).Some? ==> felt.pointer == LastPlace(h.events))
  {
    hide Run, Track, FeelAll, Thins, NonMoves, SameKeys, LastPlace, Proper;
    var start, rest := NEW_WORLD, AT_REST;
    NewIsInv(start);
    NothingPointedAt(start.h);
    RunPoints(start, actions, link);
    var w, h := Run(start, actions, link), Track(start, rest, actions, link);
    HeldStateAgrees(actions, link);
    WhatIsDoneIsSent(actions, link, NOTHING_HELD);
    FeltPointer(NOTHING_HELD, h.events);
    FeltPointer(NOTHING_HELD, w.h.delivered + Queued(w.c));
    LastPlaceConcat(w.h.delivered, Queued(w.c));
    FeltPointer(w.h.host, Queued(w.c));
  }
}
