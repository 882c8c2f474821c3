/** When control starts, stops, is suspended and resumes, and what is remembered of what was sent. */
module RemoteInputControl {
  import opened Basics
  import opened RemoteInputModel
  import opened Proofs = RemoteInputProofs
  import opened Runs = RemoteInputRuns

  // ---- Starting and suspending ----

  /** Control starts if and only if canvas, frame and keyboard hook are there and a geometry is known; it
      starts with nothing held, suspended for the transfers and changes under way, a hidden canvas and an
      inactive window. */
  lemma StartsWhenReady(w: World, ready: bool, hidden: bool, inactive: bool)
    ensures var r := Activate(w, ready, hidden, inactive);
            && (r.c.active <==> w.c.active || (ready && w.c.geometry != 0))
            && (r.c.active && !w.c.active ==>
                  && Queued(r.c) == [] && r.c.keys == {} && r.c.buttons == {} && r.c.acks == [] && !r.c.releaseSent
                  && r.c.region == w.c.region && r.c.sequence == w.c.sequence && r.h.sent == w.h.sent
                  && (HiddenOrMinimized in r.c.flags <==> hidden) && (WindowInactive in r.c.flags <==> inactive)
                  && LocalUiFocus !in r.c.flags
                  && (WorkspaceTransfer in r.c.flags <==> WorkspaceTransfer in w.c.flags)
                  && (GeometryTransaction in r.c.flags <==> GeometryTransaction in w.c.flags)
                  && (CaptureRegionChange in r.c.flags <==> CaptureRegionChange in w.c.flags))
            && (r.c.active == w.c.active ==> r == w)
  {
  }

  /** Pausing ends control with everything forgotten, and tells the Host if asked to and if there was
      control to end. */
  lemma PauseTells(w: World, notify: bool)
    ensures var r := Paused(w, notify);
            && !r.c.active && r.c.flags == {} && Queued(r.c) == [] && r.c.keys == {} && r.c.buttons == {} && r.c.acks == []
            && r.c.pointer == None && r.c.region == Region(0, 0, 0) && r.c.sequence == w.c.sequence && r.c.geometry == w.c.geometry
            && r.h.sent == w.h.sent + (if notify && w.c.active then [ReleaseAll] else [])
            && r.h.reported == w.h.reported
  {
    assert w.h.sent + [] == w.h.sent;
  }

  /** A link that takes everything from a sequence number on. */
  ghost predicate TakesAll(link: Link, sequence: nat) { forall n: nat :: n > sequence ==> link(n) }

  /** A suspension sets or clears exactly its own reason. Over a link that takes everything, with room to
      remember it, control goes on; the first reason sends the Host a snapshot of nothing held. */
  lemma SuspensionIsExact(w: World, reason: Reason, on: bool, link: Link)
    requires Core(w) && w.c.active && TakesAll(link, w.c.sequence) && |w.c.acks| < ACK_CAPACITY
    ensures var r := SetSuspension(w, reason, on, link);
            && r.c.active && r.c.flags == (if on then w.c.flags + {reason} else w.c.flags - {reason})
            && (Forwarding(r.c) <==> r.c.flags == {})
            && (on && w.c.flags == {} && w.c.geometry != 0 ==>
                  r.h.sent == w.h.sent + [StateSync(w.c.sequence + 1, w.c.geometry, {}, {})])
            && (on && w.c.flags != {} && w.c.releaseSent ==> r.h.sent == w.h.sent)
            && (!on ==> r.h == w.h && r.c.keys == w.c.keys && r.c.buttons == w.c.buttons && Queued(r.c) == Queued(w.c))
  {
    hide Thin, Numbered, Receive;
    if (reason in w.c.flags) != on && on && !w.c.releaseSent {
      var w1 := Cleared(Flagged(w, reason, true));
      assert Codes({}) == {};
      assert Drained(w1, link) == w1;
      assert link(w.c.sequence + 1);
    }
  }

  lemma {:induction false} QuietOn(w: World, reason: Reason, changes: seq<Action>, link: Link)
    requires w.c.releaseSent && reason in w.c.flags
    requires forall a :: a in changes ==> a.Suspend? && a != Suspend(reason, false)
    ensures Run(w, changes, link).h == w.h && Run(w, changes, link).c.active == w.c.active
    decreases |changes|
  {
    hide SendStateSync;
    if changes != [] {
      assert changes[0].Suspend? && reason in Flagged(w, changes[0].reason, changes[0].on).c.flags;
      QuietOn(Next(w, changes[0], link), reason, changes[1..], link);
    }
  }

  /** Once a reason has suspended control, nothing more is sent for other reasons that come and go as long
      as it lasts. */
  lemma {:induction false} SuspensionsReleaseOnce(w: World, reason: Reason, changes: seq<Action>, link: Link)
    requires Core(w) && w.c.active && reason !in w.c.flags && SetSuspension(w, reason, true, link).c.active
    requires forall a :: a in changes ==> a.Suspend? && a != Suspend(reason, false)
    ensures var r := SetSuspension(w, reason, true, link);
            Run(r, changes, link).h == r.h && Run(r, changes, link).c.active
  {
    hide SendStateSync, Run, SentBefore, AcksBefore, Thin;
    if !w.c.releaseSent {
      ClearedKeepsCore(Flagged(w, reason, true));
      SyncKeepsCore(Cleared(Flagged(w, reason, true)), reason == WorkspaceTransfer, link);
    }
    QuietOn(SetSuspension(w, reason, true, link), reason, changes, link);
  }

  /** While a change of capture region is pending and nothing else suspends input, a step lets input
      through again if and only if it is the rejection of that change, or it completes the handshake: the
      Host's confirmation once what it applied has been shown, or a frame at least as new as what it
      applied. */
  lemma HandshakeResumesIff(w: World, a: Action, link: Link)
    requires RegionOk(w.c) && Ordinary(a) && w.c.active && w.c.region.pending != 0 && w.c.flags == {CaptureRegionChange}
    ensures Forwarding(Next(w, a, link).c) <==>
              || (a.RejectChange? && a.revision == w.c.region.pending)
              || (a.ConfirmChange? && a.request == w.c.region.pending && 1 <= a.revision <= w.c.region.presented)
              || (a.PresentFrame? && 1 <= w.c.region.applied <= a.revision)
  {
    hide SendStateSync, EnqueueCritical, FlushBatch;
    if Forwarding(Next(w, a, link).c) { OnlyTheHandshakeResumes(w, a, link); }
    if a.ConfirmChange? || a.PresentFrame? || a.RejectChange? {
      NextIs(w, a, link);
      assert w.c.flags - {CaptureRegionChange} == {};
    }
  }

  /** A change of capture region that is asked for is the one pending from then on, with input suspended,
      unless control ends; frames are shown and remembered meanwhile. */
  lemma ChangeIsPending(w: World, revision: nat, link: Link)
    requires RegionOk(w.c) && revision != 0
    ensures var r := BeginRegion(w, revision, link);
            && ((r.c.region == Region(revision, 0, w.c.region.presented) && CaptureRegionChange in r.c.flags)
                || (w.c.active && !r.c.active))
            && !Forwarding(r.c)
    ensures var r := PresentRegion(w, revision, link);
            r.c.geometry == revision && r.c.region.presented == revision
  {
    hide SendStateSync;
    var w1 := Cleared(Flagged(WithRegion(w, Region(revision, 0, w.c.region.presented)), CaptureRegionChange, true));
    SyncKeepsRegion(w1, false, link);
  }

  // ---- The limits ----

  /** A key event or a button press finds room for itself behind what is queued, or ends control: it ends
      control if and only if 256 events are queued already. */
  lemma QueueHolds256(w: World, down: bool, scan: Word, virtualKey: Word, extended: bool, button: Button, at: Position)
    requires Forwarding(w.c)
    ensures var r := KeyEvent(w, down, scan, virtualKey, extended);
            && (r.c.active <==> |Queued(w.c)| < 256)
            && (r.c.active ==> |Queued(r.c)| == |Queued(w.c)| + 1 && Queued(r.c)[..|Queued(w.c)|] == Queued(w.c))
    ensures var r := MouseButton(w, true, Some(button), Some(at));
            && (r.c.active <==> |Queued(w.c)| < 256)
            && (r.c.active ==> |Queued(r.c)| == |Queued(w.c)| + 1 && Queued(r.c)[..|Queued(w.c)|] == Queued(w.c))
  {
    hide NormalizeExtended, KeyOf;
  }

  /** A flush sends the oldest 48 of the queued events, or all there are, and leaves the rest queued; it
      ends control if and only if 256 messages wait for acknowledgement or the link does not take the
      batch. */
  lemma FlushSends48(w: World, link: Link)
    requires Core(w) && Forwarding(w.c) && Queued(w.c) != []
    ensures var r, n := FlushBatch(w, link), Min(48, |Queued(w.c)|);
            && (r.c.active <==> |w.c.acks| < 256 && link(w.c.sequence + 1))
            && (r.c.active ==> Queued(r.c) == Queued(w.c)[n..]
                               && r.h.sent == w.h.sent + [Batch(w.c.sequence + 1, w.c.geometry, Queued(w.c)[..n])])
  {
    hide Thin, Receive;
    var n := Min(48, |Queued(w.c)|);
    assert BatchEvents(w.c) == Queued(w.c)[..n];
    assert Queued(AfterBatch(w.c)) == Queued(w.c)[n..];
  }

  // ---- What is remembered for acknowledgement ----

  /** A batch; a snapshot that holds nothing; any other snapshot. */
  function KindSent(m: Message): AckKind
    requires !m.ReleaseAll?
  {
    match m
    case Batch(_, _, _) => BatchAck
    case StateSync(_, _, codes, buttons) => if codes == {} && buttons == {} then EmptySyncAck else StateSyncAck
  }

  function Records(sent: seq<Message>): seq<Ack> {
    if sent == [] then []
    else (if sent[0].ReleaseAll? then [] else [Ack(sent[0].sequence, KindSent(sent[0]))]) + Records(sent[1..])
  }

  lemma {:induction false} RecordsConcat(a: seq<Message>, b: seq<Message>)
    ensures Records(a + b) == Records(a) + Records(b)
  {
    hide KindSent;
    if a == [] {
      assert a + b == b && [] + Records(b) == Records(b);
    } else {
      assert (a + b)[1..] == a[1..] + b;
      RecordsConcat(a[1..], b);
      var first := if a[0].ReleaseAll? then [] else [Ack(a[0].sequence, KindSent(a[0]))];
      assert first + (Records(a[1..]) + Records(b)) == first + Records(a[1..]) + Records(b);
    }
  }

  /** As long as control goes on, exactly what has been sent is remembered on, in order. */
  ghost predicate Remembers(w: World, r: World) {
    r.c.active ==> w.h.sent <= r.h.sent && r.c.acks == w.c.acks + Records(r.h.sent[|w.h.sent|..])
  }

  lemma GrowsOn(a: seq<Message>, b: seq<Message>, c: seq<Message>, x: seq<Ack>, y: seq<Ack>, z: seq<Ack>)
    requires a <= b && b <= c && y == x + Records(b[|a|..]) && z == y + Records(c[|b|..])
    ensures z == x + Records(c[|a|..])
  {
    hide Records;
    assert c[|a|..] == b[|a|..] + c[|b|..];
    RecordsConcat(b[|a|..], c[|b|..]);
  }

  lemma RemembersOn(w: World, r: World, t: World)
    requires Remembers(w, r) && Remembers(r, t) && (t.c.active ==> r.c.active)
    ensures Remembers(w, t)
  {
    hide Records;
    if t.c.active { GrowsOn(w.h.sent, r.h.sent, t.h.sent, w.c.acks, r.c.acks, t.c.acks); }
  }

  lemma RemembersSame(w: World, r: World)
    requires r.h.sent == w.h.sent && r.c.acks == w.c.acks
    ensures Remembers(w, r)
  {
    assert r.h.sent[|w.h.sent|..] == [];
    assert w.c.acks + [] == w.c.acks;
  }

  lemma SentRemembers(w: World, m: Message, link: Link)
    requires !m.ReleaseAll?
    ensures Remembers(w, Sent(w, m, link)) && (Sent(w, m, link).c.active ==> w.c.active)
  {
    hide Receive;
    var r := Sent(w, m, link);
    if r.c.active {
      assert r.h.sent[|w.h.sent|..] == [m];
      assert [m][1..] == [] && Records([m]) == [Ack(m.sequence, KindSent(m))] + Records([]);
    }
  }

  lemma FlushRemembers(w: World, link: Link)
    ensures Remembers(w, FlushBatch(w, link)) && (FlushBatch(w, link).c.active ==> w.c.active)
  {
    hide Sent, BatchEvents, Remembers;
    if Forwarding(w.c) && BatchEvents(w.c) != [] {
      var c := w.(c := AfterBatch(w.c));
      SentRemembers(c, Batch(w.c.sequence + 1, w.c.geometry, BatchEvents(w.c)), link);
      RemembersSame(w, c);
      RemembersOn(w, c, FlushBatch(w, link));
    } else {
      RemembersSame(w, w);
    }
  }

  lemma {:induction false} DrainRemembers(w: World, link: Link)
    ensures Remembers(w, Drained(w, link)) && (Drained(w, link).c.active ==> w.c.active)
    decreases if Forwarding(w.c) then |Queued(w.c)| else 0
  {
    hide Remembers;
    if Forwarding(w.c) && Queued(w.c) != [] {
      FlushRemembers(w, link);
      DrainRemembers(FlushBatch(w, link), link);
      RemembersOn(w, FlushBatch(w, link), Drained(w, link));
    } else {
      RemembersSame(w, w);
    }
  }

  lemma SyncRemembers(w: World, duringTransfer: bool, link: Link)
    ensures Remembers(w, SendStateSync(w, duringTransfer, link)) && (SendStateSync(w, duringTransfer, link).c.active ==> w.c.active)
  {
    hide Drained, Sent, Remembers, Codes;
    RemembersSame(w, w);
    DrainRemembers(w, link);
    var d := Drained(w, link);
    var e := d.(c := d.c.(sequence := d.c.sequence + 1));
    RemembersSame(d, e);
    SentRemembers(e, Snapshot(d.c), link);
    RemembersOn(w, d, e);
    RemembersOn(w, e, Sent(e, Snapshot(d.c), link));
  }

  lemma SuspensionRemembers(w: World, reason: Reason, on: bool, link: Link)
    ensures Remembers(w, SetSuspension(w, reason, on, link))
  {
    hide SendStateSync;
    var c := Cleared(Flagged(w, reason, on));
    SyncRemembers(c, reason == WorkspaceTransfer, link);
    RemembersSame(w, w);
    RemembersSame(w, Flagged(w, reason, on));
  }

  lemma EnqueueRemembers(w: World, e: Event)
    ensures Remembers(w, EnqueueCritical(w, e)) && (EnqueueCritical(w, e).c.active ==> w.c.active)
  {
    RemembersSame(w, w);
  }

  lemma CompleteRemembers(w: World, link: Link)
    ensures Remembers(w, CompleteRegion(w, link))
  {
    hide SetSuspension;
    RemembersSame(w, w);
    SuspensionRemembers(WithRegion(w, Region(0, 0, w.c.region.presented)), CaptureRegionChange, false, link);
  }

  lemma WheelRemembers(w: World, at: Position, dx: int, dy: int)
    ensures Remembers(w, WheelTurn(w, Some(at), dx, dy))
  {
    hide EnqueueCritical, Remembers;
    var w1 := w.(c := w.c.(pointer := Some(at)));
    RemembersSame(w, w);
    RemembersSame(w, w1);
    EnqueueRemembers(w1, Wheel(at, dy));
    var w2 := if dy != 0 then EnqueueCritical(w1, Wheel(at, dy)) else w1;
    if dy != 0 { RemembersOn(w, w1, w2); }
    EnqueueRemembers(w2, HorizontalWheel(at, dx));
    RemembersOn(w, w2, EnqueueCritical(w2, HorizontalWheel(at, dx)));
  }

  /** In every step that neither starts control nor brings an acknowledgement, what is remembered grows by
      exactly what is sent, with its number and its kind, unless control ends. */
  lemma {:induction false} SentIsRemembered(w: World, a: Action, link: Link)
    requires !a.Start? && !a.AckUpTo?
    ensures Remembers(w, Next(w, a, link))
  {
    hide SetSuspension, SendStateSync, EnqueueCritical, FlushBatch, CompleteRegion, WheelTurn, Remembers, Records;
    RemembersSame(w, w);
    match a {
      case Suspend(reason, on) => SuspensionRemembers(w, reason, on, link);
      case Key(down, scan, vk, extended) =>
        var key := KeyOf(scan, extended);
        var k := w.(c := w.c.(keys := if down then w.c.keys + {key} else w.c.keys - {key}));
        var e := if down then KeyDown(scan, vk, NormalizeExtended(scan, extended), key in w.c.keys)
                 else KeyUp(scan, vk, NormalizeExtended(scan, extended));
        RemembersSame(w, k);
        EnqueueRemembers(k, e);
        RemembersOn(w, k, EnqueueCritical(k, e));
      case PointerMove(at) => RemembersSame(w, Next(w, a, link));
      case PointerButton(press, button, at) => ButtonRemembers(w, press, button, at);
      case PointerWheel(at, dx, dy) =>
        if at.Some? { WheelRemembers(w, at.value, dx, dy); } else { WheelOffFrame(w, dx, dy); }
      case FlushTimer => FlushRemembers(w, link);
      case SyncTimer => SyncRemembers(w, false, link);
      case Shortcut =>
        SyncRemembers(Cleared(w), false, link);
        RemembersSame(w, Cleared(w));
        RemembersOn(w, Cleared(w), SendStateSync(Cleared(w), false, link));
      case SetGeometry(revision) => RemembersSame(w, Next(w, a, link));
      case BeginChange(revision) => RegionRemembers(w, Region(revision, 0, w.c.region.presented), true, link);
      case ConfirmChange(request, revision) => CompletedRemembers(w, w.c.geometry, w.c.region.(applied := revision), link);
      case RejectChange(revision) => RegionRemembers(w, Region(0, 0, w.c.region.presented), false, link);
      case PresentFrame(revision) => CompletedRemembers(w, revision, w.c.region.(presented := revision), link);
      case Pause(notify) => PausedRemembers(w, notify);
    }
  }

  lemma PausedRemembers(w: World, notify: bool)
    ensures Remembers(w, Paused(w, notify))
  {
  }

  lemma WheelOffFrame(w: World, dx: int, dy: int)
    ensures WheelTurn(w, None, dx, dy) == w
  {
  }

  lemma RegionRemembers(w: World, r: Region, on: bool, link: Link)
    ensures Remembers(w, SetSuspension(WithRegion(w, r), CaptureRegionChange, on, link))
  {
    hide SetSuspension;
    SuspensionRemembers(WithRegion(w, r), CaptureRegionChange, on, link);
  }

  lemma CompletedRemembers(w: World, geometry: nat, r: Region, link: Link)
    ensures Remembers(w, CompleteRegion(World(w.c.(geometry := geometry, region := r), w.h), link))
    ensures World(w.c.(geometry := w.c.geometry, region := r), w.h) == WithRegion(w, r)
  {
    hide CompleteRegion;
    CompleteRemembers(World(w.c.(geometry := geometry, region := r), w.h), link);
  }

  lemma ButtonRemembers(w: World, press: bool, button: Option<Button>, at: Option<Position>)
    ensures Remembers(w, MouseButton(w, press, button, at))
  {
    hide EnqueueCritical, Records;
    RemembersSame(w, w);
    var place := ButtonPosition(w.c, press, button, at);
    if button.Some? && place.Some? {
      var b := button.value;
      EnqueueRemembers(w.(c := w.c.(buttons := w.c.buttons + {b}, pointer := place)), ButtonDown(place.value, b));
      EnqueueRemembers(w.(c := w.c.(buttons := w.c.buttons - {b})), ButtonUp(place.value, b));
    }
  }
}
