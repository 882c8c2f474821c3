/** What every run of the capture keeps. */
module RemoteInputProofs {
  import opened Basics
  import opened RemoteInputModel
  import opened Events = RemoteInputEventProofs

  // ---- Shape: bounds, and nothing queued or pressed while input is not forwarded ----

  predicate Idle(c: Capture) { Queued(c) == [] && c.keys == {} && c.buttons == {} }

  predicate Shape(c: Capture) {
    && |c.critical| <= QUEUE_CAPACITY && |c.acks| <= ACK_CAPACITY
    && (c.latest.Some? ==> c.latest.value.Move?)
    && (c.releaseSent ==> c.active && c.flags != {})
    && (c.buttons != {} ==> c.pointer.Some?)
    && (!Forwarding(c) ==> Idle(c))
    && (!c.active ==> c.acks == [])
  }

  /** The events handed over and those queued are the offered ones, thinned. */
  predicate Thin(w: World) {
    && Thins(w.h.offered, w.h.delivered + Queued(w.c))
    && (w.c.latest.Some? ==> w.h.offered != [] && w.h.offered[|w.h.offered| - 1] == w.c.latest.value)
  }

  // ---- Sequence numbers ----

  predicate SentBefore(sent: seq<Message>, n: nat) {
    && (forall m :: m in sent && !m.ReleaseAll? ==> 1 <= m.sequence <= n)
    && (forall i, j :: 0 <= i < j < |sent| && !sent[i].ReleaseAll? && !sent[j].ReleaseAll? ==> sent[i].sequence < sent[j].sequence)
  }

  predicate IsRecordOf(a: Ack, m: Message) { !m.ReleaseAll? && m.sequence == a.sequence && KindOf(m) == a.kind }

  predicate AcksBefore(sent: seq<Message>, records: seq<Ack>, n: nat) {
    && (forall i, j :: 0 <= i < j < |records| ==> records[i].sequence < records[j].sequence)
    && (forall a :: a in records ==> a.sequence <= n && exists m :: m in sent && IsRecordOf(a, m))
  }

  /** Sequence numbers increase, and reported then pending acknowledgements are sent messages in order. */
  predicate Numbered(w: World) {
    && SentBefore(w.h.sent, w.c.sequence)
    && AcksBefore(w.h.sent, w.h.reported + w.c.acks, w.c.sequence)
  }

  predicate Core(w: World) { Shape(w.c) && Thin(w) && Numbered(w) }

  // ---- Agreement ----

  predicate Holds(h: Host, keys: set<Key>, buttons: set<Button>) { h.keys == keys && h.buttons == buttons }

  /** While control is active, what the Host will hold once it has everything queued is what the
      capture counts as pressed. */
  predicate Agrees(w: World) {
    w.c.active ==>
      && w.c.geometry != 0 && AllValid(Queued(w.c)) && ProperKeys(w.h.host.keys)
      && Holds(FeelAll(w.h.host, Queued(w.c)), w.c.keys, w.c.buttons)
  }

  predicate Inv(w: World) { Core(w) && Agrees(w) }

  /** Control has just ended. */
  predicate Ended(w: World) { Inv(w) && !w.c.active && w.c.flags == {} }

  // ---- Clearing and pausing ----

  lemma AcksPrefix(sent: seq<Message>, records: seq<Ack>, rest: seq<Ack>, n: nat)
    requires AcksBefore(sent, records + rest, n)
    ensures AcksBefore(sent, records + [], n)
  {
    var all := records + rest;
    assert records + [] == records;
    forall a | a in records ensures a.sequence <= n && exists m :: m in sent && IsRecordOf(a, m) {
      assert a in all;
    }
    forall i, j | 0 <= i < j < |records| ensures records[i].sequence < records[j].sequence {
      assert all[i] == records[i] && all[j] == records[j];
    }
  }

  lemma SentOneMore(sent: seq<Message>, m: Message, n: nat)
    requires SentBefore(sent, n) && (m.ReleaseAll? || m.sequence == n + 1)
    ensures SentBefore(sent + [m], if m.ReleaseAll? then n else n + 1)
  {
  }

  lemma AcksOneMore(sent: seq<Message>, records: seq<Ack>, m: Message, n: nat)
    requires AcksBefore(sent, records, n) && !m.ReleaseAll? && m.sequence == n + 1
    ensures AcksBefore(sent + [m], records + [Ack(m.sequence, KindOf(m))], n + 1)
  {
    AcksKept(sent, records, m, n);
    var a := Ack(m.sequence, KindOf(m));
    assert m in sent + [m] && IsRecordOf(a, m);
  }

  lemma AcksKept(sent: seq<Message>, records: seq<Ack>, m: Message, n: nat)
    requires AcksBefore(sent, records, n)
    ensures AcksBefore(sent + [m], records, n)
  {
    forall a | a in records ensures exists x :: x in sent + [m] && IsRecordOf(a, x) {
      var x :| x in sent && IsRecordOf(a, x);
      assert x in sent + [m];
    }
  }

  /** Numbers stay in order when a message with number `n + 1` is given up: nothing is pending then. */
  lemma AcksLater(sent: seq<Message>, records: seq<Ack>, n: nat)
    requires SentBefore(sent, n) && AcksBefore(sent, records, n)
    ensures SentBefore(sent, n + 1) && AcksBefore(sent, records, n + 1)
  {
  }

  lemma PausedCore(w: World, notify: bool)
    requires SentBefore(w.h.sent, w.c.sequence)
    requires AcksBefore(w.h.sent, w.h.reported + [], w.c.sequence)
    ensures Core(Paused(w, notify)) && Agrees(Paused(w, notify))
    ensures !Paused(w, notify).c.active
  {
    hide SentBefore, AcksBefore;
    SentOneMore(w.h.sent, ReleaseAll, w.c.sequence);
    AcksKept(w.h.sent, w.h.reported + [], ReleaseAll, w.c.sequence);
  }

  lemma PausedKeepsInv(w: World, notify: bool)
    requires Numbered(w)
    ensures Inv(Paused(w, notify))
  {
    hide SentBefore, AcksBefore;
    AcksPrefix(w.h.sent, w.h.reported, w.c.acks, w.c.sequence);
    PausedCore(w, notify);
  }

  // ---- Sending ----

  /** The outcome of a send: control has ended, or the message is recorded and the rest is as it was. */
  lemma SentNumbers(w: World, c: Capture, m: Message, link: Link)
    requires Numbered(w) && c.active && c.acks == w.c.acks && c.sequence == w.c.sequence + 1
    requires !m.ReleaseAll? && m.sequence == c.sequence
    ensures var r := Sent(World(c, w.h), m, link);
            && (!r.c.active ==> Ended(r))
            && (|c.acks| <= ACK_CAPACITY ==> |r.c.acks| <= ACK_CAPACITY)
            && (r.c.active ==> Numbered(r) && r.h == Taken(w.h, m) && r.c == c.(acks := r.c.acks))
  {
    hide SentBefore, AcksBefore, Thins, FeelAll, Receive, Inv;
    var n := w.c.sequence;
    var a := Ack(m.sequence, KindOf(m));
    AcksPrefix(w.h.sent, w.h.reported, w.c.acks, n);
    AcksLater(w.h.sent, w.h.reported + [], n);
    SentOneMore(w.h.sent, m, n);
    AcksOneMore(w.h.sent, w.h.reported + w.c.acks, m, n);
    assert w.h.reported + w.c.acks + [a] == w.h.reported + (w.c.acks + [a]);
    PausedInv(World(c, w.h));
    PausedInv(World(c.(acks := c.acks + [a]), w.h));
  }

  lemma PausedInv(w: World)
    requires SentBefore(w.h.sent, w.c.sequence)
    requires AcksBefore(w.h.sent, w.h.reported + [], w.c.sequence)
    ensures Ended(Paused(w, true))
  {
    PausedCore(w, true);
  }

  // ---- Flushing ----

  lemma BatchSplitsQueue(c: Capture)
    ensures BatchEvents(c) + Queued(AfterBatch(c)) == Queued(c)
    ensures |BatchEvents(c)| <= BATCH_LIMIT
    ensures Queued(c) != [] ==> BatchEvents(c) != []
  {
  }

  /** What a send leaves alone as long as control goes on. */
  predicate SameControl(c: Capture, d: Capture) {
    && d.active == c.active && d.flags == c.flags && d.releaseSent == c.releaseSent && d.geometry == c.geometry
    && d.region == c.region && d.keys == c.keys && d.buttons == c.buttons && d.pointer == c.pointer
  }

  lemma FlushKeepsCore(w: World, link: Link)
    requires Core(w)
    ensures var r := FlushBatch(w, link);
            && Core(r) && (r.c.active ==> SameControl(w.c, r.c)) && (!r.c.active ==> Ended(r) || r == w)
            && (Forwarding(w.c) && Queued(w.c) != [] && r.c.active ==> |Queued(r.c)| < |Queued(w.c)|)
  {
    hide Sent, Inv, BatchEvents, Thins, Numbered;
    BatchSplitsQueue(w.c);
    if Forwarding(w.c) && BatchEvents(w.c) != [] {
      var m := Batch(w.c.sequence + 1, w.c.geometry, BatchEvents(w.c));
      SentNumbers(w, AfterBatch(w.c), m, link);
      var r := FlushBatch(w, link);
      InvIsCore(r);
      if r.c.active { BatchTaken(w, r); }
    }
  }

  /** A batch taken out of the queue and handed over. */
  lemma BatchTaken(w: World, r: World)
    requires Core(w) && Forwarding(w.c) && BatchEvents(w.c) != [] && Numbered(r) && |r.c.acks| <= ACK_CAPACITY
    requires r.c == AfterBatch(w.c).(acks := r.c.acks)
    requires r.h == Taken(w.h, Batch(w.c.sequence + 1, w.c.geometry, BatchEvents(w.c)))
    ensures Core(r) && |Queued(r.c)| < |Queued(w.c)|
  {
    hide SentBefore, AcksBefore, Thins, Receive, BatchEvents;
    BatchSplitsQueue(w.c);
    InQueue(AfterBatch(w.c), r.c);
    assert w.h.delivered + BatchEvents(w.c) + Queued(AfterBatch(w.c)) == w.h.delivered + Queued(w.c);
  }

  lemma InvIsCore(w: World)
    ensures Inv(w) ==> Core(w) && Agrees(w)
  {
  }

  lemma FlushKeepsAgreement(w: World, link: Link)
    requires Inv(w)
    ensures Inv(FlushBatch(w, link))
  {
    hide SentBefore, AcksBefore, Thins, FeelAll, Sent, Shape, Thin, Inv, BatchEvents, Queued, Receive;
    InvIsCore(w);
    FlushKeepsCore(w, link);
    var r := FlushBatch(w, link);
    if Forwarding(w.c) && BatchEvents(w.c) != [] {
      var b := BatchEvents(w.c);
      var m := Batch(w.c.sequence + 1, w.c.geometry, b);
      SentNumbers(w, AfterBatch(w.c), m, link);
      if r.c.active {
        BatchLands(w.c, w.h.host);
        assert r.c == AfterBatch(w.c).(acks := r.c.acks);
        assert Queued(r.c) == Queued(AfterBatch(w.c)) by { InQueue(AfterBatch(w.c), r.c); }
      }
    }
    CoreAndAgreement(r);
  }

  lemma InQueue(c: Capture, d: Capture)
    requires c.critical == d.critical && c.latest == d.latest
    ensures Queued(c) == Queued(d)
  {
  }

  lemma CoreAndAgreement(w: World)
    ensures Inv(w) <==> Core(w) && Agrees(w)
  {
  }

  /** A batch of valid events reaches the Host whole. */
  lemma BatchLands(c: Capture, h: Host)
    requires c.geometry != 0 && AllValid(Queued(c)) && BatchEvents(c) != [] && ProperKeys(h.keys)
    ensures var h' := Receive(h, Batch(c.sequence + 1, c.geometry, BatchEvents(c)));
            && FeelAll(h', Queued(AfterBatch(c))) == FeelAll(h, Queued(c))
            && ProperKeys(h'.keys) && AllValid(Queued(AfterBatch(c)))
    ensures AfterBatch(c).geometry == c.geometry && AfterBatch(c).keys == c.keys && AfterBatch(c).buttons == c.buttons
    ensures AfterBatch(c).active == c.active && AfterBatch(c).acks == c.acks
    ensures AfterBatch(c).sequence == c.sequence + 1
  {
    hide ProperKeys;
    BatchSplitsQueue(c);
    var b, rest := BatchEvents(c), Queued(AfterBatch(c));
    forall e | e in b ensures ValidEvent(e) { assert e in b + rest; }
    forall e | e in rest ensures ValidEvent(e) { assert e in b + rest; }
    FeelAllConcat(h, b, rest);
    ProperKeysKept(h, b);
  }

  lemma {:induction false} DrainKeepsCore(w: World, link: Link)
    requires Core(w)
    ensures var r := Drained(w, link);
            && Core(r) && (r.c.active ==> SameControl(w.c, r.c)) && (!r.c.active ==> Ended(r) || r == w)
            && (r.c.active ==> Queued(r.c) == [])
    decreases if Forwarding(w.c) then |Queued(w.c)| else 0
  {
    hide FlushBatch, Thin, Numbered, Inv;
    if Forwarding(w.c) && Queued(w.c) != [] {
      FlushKeepsCore(w, link);
      DrainKeepsCore(FlushBatch(w, link), link);
    }
  }

  lemma {:induction false} DrainKeepsAgreement(w: World, link: Link)
    requires Inv(w)
    ensures Inv(Drained(w, link))
    decreases if Forwarding(w.c) then |Queued(w.c)| else 0
  {
    hide FlushBatch, Thin, Numbered, Shape, Agrees;
    if Forwarding(w.c) && Queued(w.c) != [] {
      FlushKeepsCore(w, link);
      FlushKeepsAgreement(w, link);
      DrainKeepsAgreement(FlushBatch(w, link), link);
    }
  }

  // ---- Snapshots ----

  lemma SnapshotKeepsCore(w: World, link: Link)
    requires Core(w) && w.c.active && Queued(w.c) == []
    ensures var r := Sent(w.(c := w.c.(sequence := w.c.sequence + 1)), Snapshot(w.c), link);
            && Core(r) && (r.c.active ==> SameControl(w.c, r.c) && Queued(r.c) == [] && r.h == Taken(w.h, Snapshot(w.c)))
            && (!r.c.active ==> Ended(r))
  {
    hide SentBefore, AcksBefore, Thins, FeelAll, Receive, Sent, Inv, Snapshot;
    SnapshotNumber(w.c);
    SentNumbers(w, w.c.(sequence := w.c.sequence + 1), Snapshot(w.c), link);
    InvIsCore(Sent(w.(c := w.c.(sequence := w.c.sequence + 1)), Snapshot(w.c), link));
    assert w.h.delivered + [] == w.h.delivered;
  }

  lemma SnapshotNumber(c: Capture)
    ensures Snapshot(c).StateSync? && Snapshot(c).sequence == c.sequence + 1
  {
  }

  lemma SyncKeepsCore(w: World, duringTransfer: bool, link: Link)
    requires Core(w)
    ensures var r := SendStateSync(w, duringTransfer, link);
            Core(r) && (r.c.active ==> SameControl(w.c, r.c)) && (!r.c.active ==> Ended(r) || r == w)
  {
    hide Drained, Thin, Numbered, Inv, Sent, Snapshot, Shape, Queued;
    DrainKeepsCore(w, link);
    var d := Drained(w, link);
    if d.c.active { SnapshotKeepsCore(d, link); }
  }

  /** What the capture counts as pressed is part of what the Host holds, and all of it unless the
      capture has just let go of everything. */
  predicate SnapshotSafe(w: World) {
    && w.c.geometry != 0 && ProperKeys(w.h.host.keys) && Queued(w.c) == []
    && (Holds(w.h.host, w.c.keys, w.c.buttons) || Idle(w.c))
  }

  lemma SnapshotAgrees(w: World, link: Link)
    requires Core(w) && w.c.active && SnapshotSafe(w)
    ensures Inv(Sent(w.(c := w.c.(sequence := w.c.sequence + 1)), Snapshot(w.c), link))
  {
    hide Core, Thin, Numbered, Sent, Inv, Receive;
    SnapshotKeepsCore(w, link);
    var r := Sent(w.(c := w.c.(sequence := w.c.sequence + 1)), Snapshot(w.c), link);
    SnapshotLands(w.h.host, w.c.sequence + 1, w.c.geometry, w.c.keys, w.c.buttons);
    if Idle(w.c) { NoCodes(w.c); }
    CoreAndAgreement(r);
  }

  lemma NoCodes(c: Capture)
    requires c.keys == {} && c.geometry != 0
    ensures ValidMessage(Snapshot(c))
  {
    assert Codes(c.keys) == {};
  }

  /** A snapshot that is not withheld keeps agreement, and restores it after everything was let go. */
  lemma SyncAgrees(w: World, duringTransfer: bool, link: Link)
    requires Core(w) && w.c.active && (duringTransfer || WorkspaceTransfer !in w.c.flags)
    requires Agrees(w) || SnapshotSafe(w)
    ensures Inv(SendStateSync(w, duringTransfer, link))
  {
    hide Thin, Numbered, Sent, Snapshot, Shape;
    DrainKeepsCore(w, link);
    if Agrees(w) {
      DrainKeepsAgreement(w, link);
    } else {
      assert Drained(w, link) == w;
    }
    var d := Drained(w, link);
    if d.c.active { SnapshotAgrees(d, link); }
  }

  // ---- Letting go, suspending, starting ----

  lemma ClearedKeepsCore(w: World)
    requires Numbered(w) && |w.c.acks| <= ACK_CAPACITY && (!w.c.active ==> w.c.acks == [])
    requires w.c.releaseSent ==> w.c.active && w.c.flags != {}
    ensures Core(Cleared(w)) && Idle(Cleared(w).c)
  {
    hide SentBefore, AcksBefore;
    assert Thins([], [] + []);
  }

  lemma LetGoKeepsCore(w: World, link: Link)
    requires Core(w)
    ensures Core(LetGo(w, link)) && (Agrees(w) ==> Inv(LetGo(w, link)))
  {
    hide Numbered, Thin, SendStateSync, Inv;
    CoreAndAgreement(w);
    if Forwarding(w.c) {
      ClearedKeepsCore(w);
      SyncKeepsCore(Cleared(w), false, link);
      if Agrees(w) { SyncAgrees(Cleared(w), false, link); }
    }
  }

  lemma {:induction false} SuspensionKeepsCore(w: World, reason: Reason, on: bool, link: Link)
    requires Core(w)
    ensures Core(SetSuspension(w, reason, on, link))
  {
    hide SentBefore, AcksBefore, Thins, SendStateSync, Inv;
    if (reason in w.c.flags) != on {
      var w1 := Flagged(w, reason, on);
      if w1.c.active && on && !w1.c.releaseSent {
        ClearedKeepsCore(w1);
        SyncKeepsCore(Cleared(w1), reason == WorkspaceTransfer, link);
        InvIsCore(SendStateSync(Cleared(w1), reason == WorkspaceTransfer, link));
        assert reason in w1.c.flags;
      }
    }
  }

  lemma {:induction false} SuspensionKeepsAgreement(w: World, reason: Reason, on: bool, link: Link)
    requires Inv(w)
    ensures Inv(SetSuspension(w, reason, on, link))
  {
    hide Thin, Numbered, SendStateSync, Core, FeelAll, AllValid, ProperKeys;
    InvIsCore(w);
    SuspensionKeepsCore(w, reason, on, link);
    if (reason in w.c.flags) != on {
      var w1 := Flagged(w, reason, on);
      if w1.c.active && on && !w1.c.releaseSent {
        SuspendedRelease(w, reason, link);
      }
    }
  }

  /** The first reason to suspend leaves the Host holding nothing, or ends control. */
  lemma SuspendedRelease(w: World, reason: Reason, link: Link)
    requires Inv(w) && w.c.active && reason !in w.c.flags && !w.c.releaseSent
    ensures var r := SendStateSync(Cleared(Flagged(w, reason, true)), reason == WorkspaceTransfer, link);
            Agrees(r) && (r.c.active ==> Holds(r.h.host, {}, {}) && Idle(r.c))
  {
    hide Thin, SentBefore, AcksBefore, FeelAll;
    var w1 := Flagged(w, reason, true);
    ClearedKeepsCore(w1);
    ProperHost(w);
    SyncKeepsCore(Cleared(w1), reason == WorkspaceTransfer, link);
    var r := SendStateSync(Cleared(w1), reason == WorkspaceTransfer, link);
    if r.c.active && Agrees(r) { IdleHoldsNothing(r); }
    if reason != WorkspaceTransfer && WorkspaceTransfer in w.c.flags {
      assert Idle(w.c);
      AgreesWhenCleared(w, w1);
    } else {
      SyncAgrees(Cleared(w1), reason == WorkspaceTransfer, link);
    }
  }

  lemma IdleHoldsNothing(w: World)
    requires Shape(w.c) && Agrees(w) && w.c.active && !Forwarding(w.c)
    ensures Holds(w.h.host, {}, {}) && Idle(w.c)
  {
  }

  lemma ProperHost(w: World)
    requires Agrees(w) && w.c.active
    ensures w.c.geometry != 0 && ProperKeys(w.h.host.keys)
    ensures Queued(w.c) == [] ==> Holds(w.h.host, w.c.keys, w.c.buttons)
  {
  }

  lemma AgreesWhenCleared(w: World, w1: World)
    requires Agrees(w) && w.c.active && Idle(w.c) && w1.h == w.h && w1.c.geometry == w.c.geometry
    ensures Agrees(Cleared(w1))
  {
  }

  lemma ActivateKeepsInv(w: World, ready: bool, hidden: bool, inactive: bool)
    requires Core(w)
    ensures Core(Activate(w, ready, hidden, inactive))
    ensures Agrees(w) ==> Agrees(Activate(w, ready, hidden, inactive))
  {
    hide SentBefore, AcksBefore;
    assert Thins([], [] + []);
  }

  // ---- Queueing ----

  /** Adding one event that says what the change of what is pressed says. */
  lemma EnqueueKeepsCore(w: World, keys: set<Key>, buttons: set<Button>, pointer: Option<Position>, e: Event)
    requires Core(w) && Forwarding(w.c) && (buttons != {} ==> pointer.Some?)
    ensures Core(EnqueueCritical(w.(c := w.c.(keys := keys, buttons := buttons, pointer := pointer)), e))
  {
    hide SentBefore, AcksBefore, Thins;
    var w1 := w.(c := w.c.(keys := keys, buttons := buttons, pointer := pointer));
    var r := EnqueueCritical(w1, e);
    if |Queued(w.c)| >= QUEUE_CAPACITY {
      PausedKeepsInv(w1, true);
    } else {
      ThinsAppend(w.h.offered, w.h.delivered + Queued(w.c), e);
      assert w.h.delivered + Queued(w.c) + [e] == w.h.delivered + Queued(r.c);
    }
  }

  lemma EnqueueKeepsAgreement(w: World, keys: set<Key>, buttons: set<Button>, pointer: Option<Position>, e: Event)
    requires Agrees(w) && Forwarding(w.c) && ValidEvent(e)
    requires forall h :: Holds(h, w.c.keys, w.c.buttons) ==> Holds(Feel(h, e), keys, buttons)
    ensures Agrees(EnqueueCritical(w.(c := w.c.(keys := keys, buttons := buttons, pointer := pointer)), e))
  {
    hide ProperKeys, Feel, ValidEvent;
    var r := EnqueueCritical(w.(c := w.c.(keys := keys, buttons := buttons, pointer := pointer)), e);
    if |Queued(w.c)| < QUEUE_CAPACITY {
      assert Queued(r.c) == Queued(w.c) + [e];
      FeelAllConcat(w.h.host, Queued(w.c), [e]);
      FeelAllOne(FeelAll(w.h.host, Queued(w.c)), e);
      assert Holds(FeelAll(w.h.host, Queued(w.c)), w.c.keys, w.c.buttons);
    }
  }

  lemma KeyKeepsCore(w: World, down: bool, scan: Word, vk: Word, extended: bool)
    requires Core(w)
    ensures Core(KeyEvent(w, down, scan, vk, extended))
  {
    hide Thin, Numbered, EnqueueCritical;
    if Forwarding(w.c) {
      var ext, key := NormalizeExtended(scan, extended), KeyOf(scan, extended);
      var e := if down then KeyDown(scan, vk, ext, key in w.c.keys) else KeyUp(scan, vk, ext);
      EnqueueKeepsCore(w, if down then w.c.keys + {key} else w.c.keys - {key}, w.c.buttons, w.c.pointer, e);
    }
  }

  lemma KeyKeepsAgreement(w: World, down: bool, scan: Word, vk: Word, extended: bool)
    requires Agrees(w) && 1 <= scan <= 0xFF && vk <= 0xFF
    ensures Agrees(KeyEvent(w, down, scan, vk, extended))
  {
    hide EnqueueCritical, Agrees;
    if Forwarding(w.c) {
      var ext, key := NormalizeExtended(scan, extended), KeyOf(scan, extended);
      var e := if down then KeyDown(scan, vk, ext, key in w.c.keys) else KeyUp(scan, vk, ext);
      EnqueueKeepsAgreement(w, if down then w.c.keys + {key} else w.c.keys - {key}, w.c.buttons, w.c.pointer, e);
    }
  }

  lemma MoveKeepsCore(w: World, at: Option<Position>)
    requires Core(w)
    ensures Core(MouseMove(w, at))
    ensures Agrees(w) ==> Agrees(MouseMove(w, at))
  {
    hide SentBefore, AcksBefore, Thins, ProperKeys;
    if Forwarding(w.c) && at.Some? {
      var r, e := MouseMove(w, at), Move(at.value);
      var before := w.h.delivered + w.c.critical;
      assert w.h.delivered + Queued(r.c) == before + [e];
      if w.c.latest.Some? {
        assert w.h.delivered + Queued(w.c) == before + [w.c.latest.value];
        ThinsReplace(w.h.offered, before, w.c.latest.value, e);
        FeelAllConcat(w.h.host, w.c.critical, [w.c.latest.value]);
        FeelAllOne(FeelAll(w.h.host, w.c.critical), w.c.latest.value);
      } else {
        assert w.h.delivered + Queued(w.c) == before;
        ThinsAppend(w.h.offered, before, e);
        assert Queued(w.c) == w.c.critical;
      }
      FeelAllConcat(w.h.host, w.c.critical, [e]);
      FeelAllOne(FeelAll(w.h.host, w.c.critical), e);
    }
  }

  lemma ButtonKeepsCore(w: World, press: bool, button: Option<Button>, at: Option<Position>)
    requires Core(w)
    ensures Core(MouseButton(w, press, button, at))
    ensures Agrees(w) ==> Agrees(MouseButton(w, press, button, at))
  {
    hide Thin, Numbered, EnqueueCritical, Agrees;
    var place := ButtonPosition(w.c, press, button, at);
    if Forwarding(w.c) && button.Some? && place.Some? && (press || button.value in w.c.buttons) {
      var b := button.value;
      var buttons := if press then w.c.buttons + {b} else w.c.buttons - {b};
      var e := if press then ButtonDown(place.value, b) else ButtonUp(place.value, b);
      var pointer := if press then place else w.c.pointer;
      EnqueueKeepsCore(w, w.c.keys, buttons, pointer, e);
      if Agrees(w) { EnqueueKeepsAgreement(w, w.c.keys, buttons, pointer, e); }
    }
  }

  predicate ProperDelta(d: int) { -12000 <= d <= 12000 }

  lemma {:induction false} WheelKeepsCore(w: World, at: Option<Position>, dx: int, dy: int)
    requires Core(w)
    ensures Core(WheelTurn(w, at, dx, dy))
    ensures Agrees(w) && ProperDelta(dx) && ProperDelta(dy) ==> Agrees(WheelTurn(w, at, dx, dy))
  {
    hide Thin, Numbered, Agrees, EnqueueCritical;
    if Forwarding(w.c) && at.Some? {
      var w1 := w.(c := w.c.(pointer := at));
      OneWheel(w, at, Wheel(at.value, dy));
      var w2 := if dy != 0 then EnqueueCritical(w1, Wheel(at.value, dy)) else w1;
      PointerKept(w, at);
      NotForwarding(w2, HorizontalWheel(at.value, dx));
      if Forwarding(w2.c) {
        OneWheel(w2, w2.c.pointer, HorizontalWheel(at.value, dx));
      }
    }
  }

  lemma PointerKept(w: World, at: Option<Position>)
    requires Core(w) && at.Some?
    ensures var w1 := w.(c := w.c.(pointer := at)); Core(w1) && (Agrees(w) ==> Agrees(w1))
  {
    hide SentBefore, AcksBefore, Thins, FeelAll;
  }

  lemma NotForwarding(w: World, e: Event)
    ensures !Forwarding(w.c) ==> EnqueueCritical(w, e) == w
  {
  }

  lemma OneWheel(w: World, at: Option<Position>, e: Event)
    requires Core(w) && Forwarding(w.c) && (e.Wheel? || e.HorizontalWheel?) && (w.c.buttons != {} ==> at.Some?)
    ensures var w1 := w.(c := w.c.(pointer := at));
            && Core(EnqueueCritical(w1, e))
            && (Agrees(w) && ValidEvent(e) ==> Agrees(EnqueueCritical(w1, e)))
  {
    hide Thin, Numbered, Agrees, EnqueueCritical;
    EnqueueKeepsCore(w, w.c.keys, w.c.buttons, at, e);
    if Agrees(w) && ValidEvent(e) { EnqueueKeepsAgreement(w, w.c.keys, w.c.buttons, at, e); }
  }

  // ---- Acknowledgements ----

  lemma CoveredSplits(acks: seq<Ack>, sequence: nat)
    requires forall i, j :: 0 <= i < j < |acks| ==> acks[i].sequence < acks[j].sequence
    ensures forall i :: 0 <= i < |acks| ==> (acks[i].sequence <= sequence <==> i < Covered(acks, sequence))
    decreases |acks|
  {
    if acks != [] && acks[0].sequence <= sequence {
      CoveredSplits(acks[1..], sequence);
      forall i | 0 <= i < |acks| ensures acks[i].sequence <= sequence <==> i < Covered(acks, sequence) {
        if i > 0 { assert acks[i] == acks[1..][i - 1]; }
      }
    }
  }

  lemma AcknowledgeKeepsInv(w: World, sequence: nat)
    requires Core(w)
    ensures Core(Acknowledge(w, sequence))
    ensures Agrees(w) ==> Agrees(Acknowledge(w, sequence))
  {
    hide Thins, SentBefore, AcksBefore, FeelAll, ProperKeys;
    var n := Covered(w.c.acks, sequence);
    assert w.h.reported + w.c.acks[..n] + w.c.acks[n..] == w.h.reported + w.c.acks;
  }

  // ---- The capture-region handshake ----

  /** A change is pending exactly while it suspends input, and is not left waiting once what it was
      applied as has been shown. */
  predicate RegionOk(c: Capture) {
    && (c.region.pending != 0 <==> CaptureRegionChange in c.flags)
    && (c.region.pending == 0 ==> c.region.applied == 0)
    && (c.region.applied != 0 ==> c.region.presented < c.region.applied)
  }

  /** The handshake is as it was, or control has ended. */
  predicate RegionKept(c: Capture, d: Capture) {
    && (d.active ==> c.active)
    && (|| (d.region == c.region && (CaptureRegionChange in d.flags <==> CaptureRegionChange in c.flags))
        || (d.region == Region(0, 0, 0) && CaptureRegionChange !in d.flags && !d.active))
  }

  lemma SentKeepsRegion(w: World, m: Message, link: Link)
    requires !m.ReleaseAll?
    ensures RegionKept(w.c, Sent(w, m, link).c)
  {
  }

  lemma FlushKeepsRegion(w: World, link: Link)
    ensures RegionKept(w.c, FlushBatch(w, link).c)
  {
    hide Sent, BatchEvents;
    if Forwarding(w.c) && BatchEvents(w.c) != [] {
      SentKeepsRegion(w.(c := AfterBatch(w.c)), Batch(w.c.sequence + 1, w.c.geometry, BatchEvents(w.c)), link);
    }
  }

  lemma {:induction false} DrainKeepsRegion(w: World, link: Link)
    ensures RegionKept(w.c, Drained(w, link).c)
    decreases if Forwarding(w.c) then |Queued(w.c)| else 0
  {
    if Forwarding(w.c) && Queued(w.c) != [] {
      FlushKeepsRegion(w, link);
      DrainKeepsRegion(FlushBatch(w, link), link);
    }
  }

  lemma SyncKeepsRegion(w: World, duringTransfer: bool, link: Link)
    ensures RegionKept(w.c, SendStateSync(w, duringTransfer, link).c)
  {
    hide Drained, Sent, Snapshot;
    DrainKeepsRegion(w, link);
    var d := Drained(w, link);
    SnapshotNumber(d.c);
    SentKeepsRegion(d.(c := d.c.(sequence := d.c.sequence + 1)), Snapshot(d.c), link);
  }

  lemma SuspensionKeepsRegion(w: World, reason: Reason, on: bool, link: Link)
    ensures RegionKept(Flagged(w, reason, on).c, SetSuspension(w, reason, on, link).c)
  {
    hide SendStateSync;
    SyncKeepsRegion(Cleared(Flagged(w, reason, on)), reason == WorkspaceTransfer, link);
  }

  lemma EnqueueKeepsRegion(w: World, e: Event)
    ensures RegionKept(w.c, EnqueueCritical(w, e).c)
  {
  }

  lemma CompleteKeepsRegion(w: World, link: Link)
    requires (w.c.region.pending != 0 <==> CaptureRegionChange in w.c.flags)
    requires w.c.region.pending == 0 ==> w.c.region.applied == 0
    ensures RegionOk(CompleteRegion(w, link).c)
  {
    hide SetSuspension;
    var r := w.c.region;
    SuspensionKeepsRegion(WithRegion(w, Region(0, 0, r.presented)), CaptureRegionChange, false, link);
  }

  /** Suspensions the rest of the program asks for by themselves. */
  predicate Ordinary(a: Action) { a.Suspend? ==> a.reason != CaptureRegionChange }

  lemma NextKeepsRegion(w: World, a: Action, link: Link)
    requires RegionOk(w.c) && Ordinary(a)
    ensures RegionOk(Next(w, a, link).c)
  {
    hide SetSuspension, SendStateSync, EnqueueCritical, FlushBatch, CompleteRegion;
    match a {
      case Suspend(reason, on) => SuspensionKeepsRegion(w, reason, on, link);
      case Key(down, scan, vk, extended) =>
        var key := KeyOf(scan, extended);
        var e := if down then KeyDown(scan, vk, NormalizeExtended(scan, extended), key in w.c.keys)
                 else KeyUp(scan, vk, NormalizeExtended(scan, extended));
        EnqueueKeepsRegion(w.(c := w.c.(keys := if down then w.c.keys + {key} else w.c.keys - {key})), e);
      case PointerButton(press, button, at) => ButtonKeepsRegion(w, press, button, at);
      case PointerWheel(at, dx, dy) => WheelKeepsRegion(w, at, dx, dy);
      case FlushTimer => FlushKeepsRegion(w, link);
      case SyncTimer => SyncKeepsRegion(w, false, link);
      case Shortcut => SyncKeepsRegion(Cleared(w), false, link);
      case BeginChange(revision) =>
        SuspensionKeepsRegion(WithRegion(w, Region(revision, 0, w.c.region.presented)), CaptureRegionChange, true, link);
      case ConfirmChange(request, revision) =>
        if request != 0 && request == w.c.region.pending && revision != 0 {
          CompleteKeepsRegion(WithRegion(w, w.c.region.(applied := revision)), link);
        }
      case RejectChange(revision) =>
        SuspensionKeepsRegion(WithRegion(w, Region(0, 0, w.c.region.presented)), CaptureRegionChange, false, link);
      case PresentFrame(revision) =>
        CompleteKeepsRegion(World(w.c.(geometry := revision, region := w.c.region.(presented := revision)), w.h), link);
      case _ =>
    }
  }

  lemma ButtonKeepsRegion(w: World, press: bool, button: Option<Button>, at: Option<Position>)
    ensures RegionKept(w.c, MouseButton(w, press, button, at).c)
  {
    hide EnqueueCritical;
    var place := ButtonPosition(w.c, press, button, at);
    if button.Some? && place.Some? {
      var b := button.value;
      EnqueueKeepsRegion(w.(c := w.c.(buttons := w.c.buttons + {b}, pointer := place)), ButtonDown(place.value, b));
      EnqueueKeepsRegion(w.(c := w.c.(buttons := w.c.buttons - {b})), ButtonUp(place.value, b));
    }
  }

  lemma WheelKeepsRegion(w: World, at: Option<Position>, dx: int, dy: int)
    ensures RegionKept(w.c, WheelTurn(w, at, dx, dy).c)
  {
    hide EnqueueCritical;
    if at.Some? {
      var w1 := w.(c := w.c.(pointer := at));
      EnqueueKeepsRegion(w1, Wheel(at.value, dy));
      EnqueueKeepsRegion(w1, HorizontalWheel(at.value, dx));
      EnqueueKeepsRegion(EnqueueCritical(w1, Wheel(at.value, dy)), HorizontalWheel(at.value, dx));
    }
  }

  /** While a change of capture region is pending, no step lets input through again except a
      rejection of that very change, or the Host's confirmation and a displayed frame at least as
      new as what it applied, in either order. */
  lemma OnlyTheHandshakeResumes(w: World, a: Action, link: Link)
    requires RegionOk(w.c) && Ordinary(a) && w.c.region.pending != 0 && Forwarding(Next(w, a, link).c)
    ensures || (a.RejectChange? && a.revision == w.c.region.pending)
            || (a.ConfirmChange? && a.request == w.c.region.pending && 1 <= a.revision <= w.c.region.presented)
            || (a.PresentFrame? && 1 <= w.c.region.applied <= a.revision)
  {
    hide SetSuspension, SendStateSync, EnqueueCritical, FlushBatch, CompleteRegion, Next;
    if a.ConfirmChange? {
      NextIs(w, a, link);
      if a.revision > w.c.region.presented { StillPending(WithRegion(w, w.c.region.(applied := a.revision)), link); }
    } else if a.PresentFrame? {
      NextIs(w, a, link);
      if w.c.region.applied == 0 || a.revision < w.c.region.applied {
        StillPending(World(w.c.(geometry := a.revision, region := w.c.region.(presented := a.revision)), w.h), link);
      }
    } else if a.RejectChange? {
      NextIs(w, a, link);
    } else {
      NextStaysSuspended(w, a, link);
    }
  }

  lemma StillPending(w: World, link: Link)
    requires CaptureRegionChange in w.c.flags && (w.c.region.applied == 0 || w.c.region.presented < w.c.region.applied)
    ensures !Forwarding(CompleteRegion(w, link).c)
  {
  }

  lemma NextIs(w: World, a: Action, link: Link)
    ensures a.ConfirmChange? ==> Next(w, a, link) == ConfirmRegion(w, a.request, a.revision, link)
    ensures a.PresentFrame? ==> Next(w, a, link) == PresentRegion(w, a.revision, link)
    ensures a.RejectChange? ==> Next(w, a, link) == RejectRegion(w, a.revision, link)
  {
    hide ConfirmRegion, PresentRegion, RejectRegion;
  }

  /** Steps outside the handshake never take the flag off a control that goes on. */
  lemma NextStaysSuspended(w: World, a: Action, link: Link)
    requires CaptureRegionChange in w.c.flags && Ordinary(a)
    requires !a.ConfirmChange? && !a.RejectChange? && !a.PresentFrame?
    ensures !Forwarding(Next(w, a, link).c)
  {
    hide SetSuspension, SendStateSync, EnqueueCritical, FlushBatch, CompleteRegion;
    match a {
      case Suspend(reason, on) => SuspensionKeepsRegion(w, reason, on, link);
      case PointerButton(press, button, at) => ButtonKeepsRegion(w, press, button, at);
      case PointerWheel(at, dx, dy) => WheelKeepsRegion(w, at, dx, dy);
      case FlushTimer => FlushKeepsRegion(w, link);
      case SyncTimer => SyncKeepsRegion(w, false, link);
      case BeginChange(revision) =>
        SuspensionKeepsRegion(WithRegion(w, Region(revision, 0, w.c.region.presented)), CaptureRegionChange, true, link);
      case Start(ready, hidden, inactive) => assert CaptureRegionChange in Activate(w, ready, hidden, inactive).c.flags;
      case _ =>
    }
  }
}
