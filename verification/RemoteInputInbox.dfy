/** The Host's inbox for remote input: it coalesces, keeps stops, and reports what it refused. */
module RemoteInputInbox {
  import opened Basics
  import opened RemoteInputModel
  import opened Events = RemoteInputEventProofs
  import opened RemoteInputSession

  const INBOX_CAPACITY: nat := 64

  predicate IsStop(c: Command) { (c.Input? && c.message.ReleaseAll?) || (c.ControlRequest? && !c.start) }

  predicate IsEmptySync(c: Command) {
    c.Input? && c.message.StateSync? && c.message.codes == {} && c.message.buttons == {}
  }

  predicate AllMoves(events: seq<Event>) { forall e :: e in events ==> e.Move? }

  predicate MotionOnly(c: Command) {
    c.Input? && c.message.Batch? && c.message.events != [] && AllMoves(c.message.events)
  }

  predicate Supersedes(next: Command, previous: Command) {
    && next.Input? && previous.Input? && next.epoch == previous.epoch
    && !next.message.ReleaseAll? && !previous.message.ReleaseAll?
    && next.message.geometry == previous.message.geometry
    && next.message.sequence > previous.message.sequence
    && ((IsEmptySync(next) && IsEmptySync(previous)) || (MotionOnly(next) && MotionOnly(previous)))
  }

  // ---- The inbox ----

  datatype Inbox = Inbox(messages: seq<Command>, overflow: bool, coalesced: nat, overflows: nat, peak: nat)

  predicate Accepts(b: Inbox, c: Command) {
    || (b.messages != [] && Supersedes(c, b.messages[|b.messages| - 1]))
    || |b.messages| < INBOX_CAPACITY
  }

  function Enqueue(b: Inbox, c: Command): Inbox {
    var n := |b.messages|;
    if n > 0 && Supersedes(c, b.messages[n - 1]) then
      b.(messages := b.messages[..n - 1] + [c], coalesced := b.coalesced + 1)
    else if n >= INBOX_CAPACITY then b.(overflow := true, overflows := b.overflows + 1)
    else b.(messages := b.messages + [c], peak := Max(b.peak, n + 1))
  }

  predicate Retained(c: Command, retainEmptySync: bool) { IsStop(c) || (retainEmptySync && IsEmptySync(c)) }

  /** A boundary discards ordinary input, never a stop. */
  function Discarded(messages: seq<Command>, retainEmptySync: bool): seq<Command>
    decreases |messages|
  {
    if messages == [] then []
    else (if Retained(messages[0], retainEmptySync) then [messages[0]] else []) + Discarded(messages[1..], retainEmptySync)
  }

  /** A release of everything, or a request to stop control. */
  predicate HasStop(messages: seq<Command>) {
    exists c :: c in messages && ((c.Input? && c.message.ReleaseAll?) || (c.ControlRequest? && !c.start))
  }

  function EnqueueAll(b: Inbox, offered: seq<Command>): Inbox
    decreases |offered|
  {
    if offered == [] then b else Enqueue(EnqueueAll(b, offered[..|offered| - 1]), offered[|offered| - 1])
  }

  lemma EnqueueLast(b: Inbox, front: seq<Command>, c: Command)
    ensures EnqueueAll(b, front + [c]) == Enqueue(EnqueueAll(b, front), c)
  {
    assert (front + [c])[..|front|] == front;
  }

  lemma OverflowStays(b: Inbox, c: Command)
    ensures b.overflow ==> Enqueue(b, c).overflow
    ensures !Accepts(b, c) <==> Enqueue(b, c).overflows == b.overflows + 1
    ensures !Accepts(b, c) ==> Enqueue(b, c).overflow
  {
  }

  /** What the inbox holds after one more command that it did not refuse: the command follows what it
      held, or takes the place of the last. */
  lemma EnqueueShape(b: Inbox, c: Command)
    requires !Enqueue(b, c).overflow
    ensures var n, r := |b.messages|, Enqueue(b, c).messages;
            if n > 0 && Supersedes(c, b.messages[n - 1]) then
              b.messages == b.messages[..n - 1] + [b.messages[n - 1]] && r == b.messages[..n - 1] + [c]
            else r == b.messages + [c]
  {
  }

  // ---- What an offer does ----

  predicate OnlyMoves(events: seq<Event>) { events != [] && forall e :: e in events ==> e.Move? }

  /** A later message of the same session and geometry makes an earlier one needless: both are snapshots
      of nothing held, or both are batches of moves and nothing else. */
  predicate MakesNeedless(c: Command, last: Command) {
    && c.Input? && last.Input? && c.epoch == last.epoch
    && match (c.message, last.message)
       case (Batch(m, g, es), Batch(n, h, fs)) => g == h && m > n && OnlyMoves(es) && OnlyMoves(fs)
       case (StateSync(m, g, ks, bs), StateSync(n, h, ls, cs)) => g == h && m > n && ks == ls == {} && bs == cs == {}
       case _ => false
  }

  /** An offer takes the place of the last message exactly if it makes that one needless; otherwise it
      follows it, or is refused, and that is remembered, exactly if 64 wait already. */
  lemma OfferMeaning(b: Inbox, c: Command)
    ensures var r, n := Enqueue(b, c), |b.messages|;
            var instead := n > 0 && MakesNeedless(c, b.messages[n - 1]);
            && (instead ==> r == b.(messages := b.messages[..n - 1] + [c], coalesced := b.coalesced + 1))
            && (!instead && n >= 64 ==> r == b.(overflow := true, overflows := b.overflows + 1) && !Accepts(b, c))
            && (!instead && n < 64 ==> r == b.(messages := b.messages + [c], peak := Max(b.peak, n + 1)))
            && (instead || n < 64 ==> Accepts(b, c))
  {
  }

  /** Every message offered is kept, replaced or refused, and counted so; the peak is the most that ever
      waited. */
  lemma {:induction false} OffersAreCounted(b: Inbox, offered: seq<Command>)
    requires |b.messages| <= b.peak
    ensures var r := EnqueueAll(b, offered);
            && |b.messages| + |offered| == |r.messages| + (r.coalesced - b.coalesced) + (r.overflows - b.overflows)
            && r.coalesced >= b.coalesced && r.overflows >= b.overflows
            && r.peak == Max(b.peak, |r.messages|)
    decreases |offered|
  {
    hide Supersedes;
    if offered != [] { OffersAreCounted(b, offered[..|offered| - 1]); }
  }

  // ---- Coalescing keeps the plain fold, whatever the capacities ----

  lemma MovesForget(h: Host, events: seq<Event>)
    requires events != [] && AllMoves(events)
    ensures FeelAll(h, events) == h.(pointer := Some(events[|events| - 1].at))
    decreases |events|
  {
    assert events[0] in events;
    if |events| > 1 {
      assert forall e :: e in events[1..] ==> e in events;
      MovesForget(Feel(h, events[0]), events[1..]);
    } else {
      FeelAllOne(h, events[0]);
      assert events == [events[0]];
    }
  }

  lemma SupersededFold(h: Host, previous: Command, next: Command)
    requires Supersedes(next, previous) && ValidMessage(next.message) && ValidMessage(previous.message)
    ensures ReceiveCommand(ReceiveCommand(h, previous), next) == ReceiveCommand(h, next)
  {
    hide FeelAll, AllMoves, ValidMessage;
    if MotionOnly(next) {
      MovesForget(h, previous.message.events);
      MovesForget(FeelAll(h, previous.message.events), next.message.events);
      MovesForget(h, next.message.events);
    }
  }

  predicate AllReadable(cs: seq<Command>) { forall c :: c in cs && c.Input? ==> ValidMessage(c.message) }

  /** Coalescing keeps the plain fold: whatever valid messages and requests are offered and none is
      refused, any Host that folds what the inbox kept ends as one that folds everything offered. */
  lemma {:induction false} CoalescingKeepsFold(b: Inbox, offered: seq<Command>, h: Host)
    requires b.messages == [] && !EnqueueAll(b, offered).overflow && AllReadable(offered)
    ensures ReceiveAll(h, EnqueueAll(b, offered).messages) == ReceiveAll(h, offered)
    ensures forall c :: c in EnqueueAll(b, offered).messages ==> c in offered
    decreases |offered|
  {
    hide Enqueue, ReceiveCommand, Supersedes, ReceiveAll;
    if offered != [] {
      var front, c := offered[..|offered| - 1], offered[|offered| - 1];
      assert offered == front + [c];
      var before := EnqueueAll(b, front);
      OverflowStays(before, c);
      CoalescingKeepsFold(b, front, h);
      EnqueueShape(before, c);
      ReceiveLast(h, front, c);
      var n := |before.messages|;
      if n > 0 && Supersedes(c, before.messages[n - 1]) {
        var rest, p := before.messages[..n - 1], before.messages[n - 1];
        ReceiveLast(h, rest, p);
        ReceiveLast(h, rest, c);
        assert p in before.messages && c in offered;
        BothInput(c, p);
        SupersededFold(ReceiveAll(h, rest), p, c);
      } else {
        ReceiveLast(h, before.messages, c);
      }
    }
  }

  lemma BothInput(next: Command, previous: Command)
    requires Supersedes(next, previous)
    ensures next.Input? && previous.Input?
  {
  }

  // ---- Coalescing and the session ----

  /** Sessions that no further input or drain can tell apart, `a` with no more queued. */
  predicate Alike(a: Session, b: Session) {
    && a.(queue := []) == b.(queue := []) && |a.queue| <= |b.queue|
    && FeelAll(a.host, a.queue) == FeelAll(a.host, b.queue)
  }

  lemma ConsumeAlike(a: Session, b: Session, c: Command, e: Surroundings)
    requires Alike(a, b) && !Overflows(b, c, e)
    ensures Alike(Consume(a, c, e), Consume(b, c, e)) && !Overflows(a, c, e)
  {
    hide FeelAll;
    if c.Input? && c.message.Batch? {
      FeelAllConcat(a.host, a.queue, MapAll(c.message.events));
      FeelAllConcat(a.host, b.queue, MapAll(c.message.events));
    } else {
      SameWhenDrained(Consume(a, c, e), Consume(b, c, e));
    }
  }

  lemma SameWhenDrained(a: Session, b: Session)
    requires a.(queue := []) == b.(queue := [])
    ensures a.queue == [] && b.queue == [] ==> Alike(a, b)
  {
  }

  lemma MotionStaysItself(events: seq<Event>)
    requires AllMoves(events)
    ensures MapAll(events) == events
  {
    MappedSize(events);
  }

  /** A message makes one it supersedes superfluous, for a session that would have had room for both. */
  lemma SupersededIsSuperfluous(s: Session, previous: Command, next: Command, e: Surroundings)
    requires Supersedes(next, previous)
    requires !Overflows(s, previous, e) && !Overflows(Consume(s, previous, e), next, e)
    ensures Alike(Consume(s, next, e), Consume(Consume(s, previous, e), next, e))
    ensures !Overflows(s, next, e)
  {
    hide FeelAll, MapAll;
    if MotionOnly(next) {
      var es, fs := previous.message.events, next.message.events;
      MotionStaysItself(es);
      MotionStaysItself(fs);
      LaterMotionWins(s.host, s.queue, es, fs);
      assert es[0] in es && fs[0] in fs;
    } else {
      var once := Consume(s, previous, e);
      if once.queue == [] { NothingToFeel(once.host, once.queue); }
    }
  }

  lemma LaterMotionWins(h: Host, queue: seq<Event>, es: seq<Event>, fs: seq<Event>)
    requires es != [] && fs != [] && AllMoves(es) && AllMoves(fs)
    ensures FeelAll(h, queue + es + fs) == FeelAll(h, queue + fs)
  {
    hide FeelAll, AllMoves;
    var h1 := FeelAll(h, queue);
    FeelAllConcat(h, queue, es);
    FeelAllConcat(h, queue + es, fs);
    FeelAllConcat(h, queue, fs);
    MovesForget(h1, es);
    MovesForget(FeelAll(h1, es), fs);
    MovesForget(h1, fs);
  }

  lemma {:induction false} CoalescingStep(b: Inbox, offered: seq<Command>, s: Session, e: Surroundings)
    requires b.messages == [] && !EnqueueAll(b, offered).overflow && NeverOverflows(s, offered, e)
    ensures var taken := EnqueueAll(b, offered).messages;
            Alike(ConsumeAll(s, taken, e), ConsumeAll(s, offered, e)) && NeverOverflows(s, taken, e)
    decreases |offered|
  {
    hide Consume, Supersedes, Alike, Accepts, ConsumeAll, Enqueue, Overflows;
    if offered == [] {
      AlikeSame(ConsumeAll(s, offered, e));
    } else {
      var front, c := offered[..|offered| - 1], offered[|offered| - 1];
      assert offered == front + [c];
      var before := EnqueueAll(b, front);
      OverflowStays(before, c);
      CoalescingStep(b, front, s, e);
      EnqueueOne(before, c, front, s, e);
    }
  }

  lemma {:induction false} EnqueueOne(b: Inbox, c: Command, front: seq<Command>, s: Session, e: Surroundings)
    requires !Enqueue(b, c).overflow && NeverOverflows(s, b.messages, e)
    requires !Overflows(ConsumeAll(s, front, e), c, e)
    requires Alike(ConsumeAll(s, b.messages, e), ConsumeAll(s, front, e))
    ensures var taken := Enqueue(b, c).messages;
            Alike(ConsumeAll(s, taken, e), ConsumeAll(s, front + [c], e)) && NeverOverflows(s, taken, e)
  {
    hide Consume, Supersedes, Alike, ConsumeAll, Overflows, NeverOverflows, Enqueue;
    var n := |b.messages|;
    var one, all := ConsumeAll(s, b.messages, e), ConsumeAll(s, front, e);
    ConsumeAlike(one, all, c, e);
    ConsumeLast(s, front, c, e);
    EnqueueShape(b, c);
    if n > 0 && Supersedes(c, b.messages[n - 1]) {
      var rest, p := b.messages[..n - 1], b.messages[n - 1];
      ConsumeLast(s, rest, p, e);
      ConsumeLast(s, rest, c, e);
      NeverOverflowsLast(s, rest, p, e);
      NeverOverflowsLast(s, rest, c, e);
      SupersededIsSuperfluous(ConsumeAll(s, rest, e), p, c, e);
      AlikeChain(Consume(ConsumeAll(s, rest, e), c, e), Consume(one, c, e), Consume(all, c, e));
    } else {
      ConsumeLast(s, b.messages, c, e);
      NeverOverflowsLast(s, b.messages, c, e);
    }
  }

  lemma AlikeSame(s: Session)
    ensures Alike(s, s)
  {
  }

  lemma AlikeChain(a: Session, b: Session, c: Session)
    requires Alike(a, b) && Alike(b, c)
    ensures Alike(a, c)
  {
  }

  /** Coalescing keeps the meaning for any session and any commands, as long as the session's own queue
      would not have overflowed without it: consuming what the inbox kept leaves the session as
      consuming everything offered, and does not overflow either. */
  lemma CoalescingKeepsMeaning(b: Inbox, offered: seq<Command>, s: Session, e: Surroundings)
    requires b.messages == [] && !EnqueueAll(b, offered).overflow && NeverOverflows(s, offered, e)
    ensures var taken := EnqueueAll(b, offered).messages;
            var one, all := DrainSession(ConsumeAll(s, taken, e)), DrainSession(ConsumeAll(s, offered, e));
            && one.(queue := []) == all.(queue := []) && (all.active && !all.blocked ==> one == all)
            && NeverOverflows(s, taken, e)
  {
    hide ConsumeAll, EnqueueAll, FeelAll, NeverOverflows;
    CoalescingStep(b, offered, s, e);
  }

  // ---- Exactly when the session's queue makes a difference ----

  lemma InOrderMore(cs: seq<Command>, c: Command, geometry: nat, after: nat)
    requires InOrder(cs, geometry, after) && IsInput(c, geometry) && c.message.sequence > after
    requires forall i :: 0 <= i < |cs| && cs[i].Input? && !cs[i].message.ReleaseAll? ==> cs[i].message.sequence < c.message.sequence
    ensures InOrder(cs + [c], geometry, after)
  {
    hide IsInput;
  }

  /** What the inbox keeps of valid input in order is in order, ends as recently, and takes no more of
      the session's queue at any point. */
  lemma {:induction false} TakenIsLighter(b: Inbox, offered: seq<Command>, geometry: nat, after: nat, start: nat)
    requires b.messages == [] && !EnqueueAll(b, offered).overflow && InOrder(offered, geometry, after)
    ensures var taken := EnqueueAll(b, offered).messages;
            && InOrder(taken, geometry, after)
            && (offered != [] ==> taken != [] && taken[|taken| - 1] == offered[|offered| - 1])
            && (offered == [] ==> taken == [])
            && Depth(start, taken) <= Depth(start, offered)
            && (FitsQueue(start, offered) ==> FitsQueue(start, taken))
    decreases |offered|
  {
    hide Enqueue, Supersedes, InOrder, IsInput, Depth, FitsQueue, Load;
    if offered == [] {
      NothingOffered(b.messages, geometry, after, start);
    } else {
      var front, c := offered[..|offered| - 1], offered[|offered| - 1];
      assert offered == front + [c];
      InOrderFront(offered, geometry, after);
      var before := EnqueueAll(b, front);
      OverflowStays(before, c);
      TakenIsLighter(b, front, geometry, after, start);
      EnqueueShape(before, c);
      FitsLast(start, front, c);
      var kept, n := before.messages, |before.messages|;
      if n > 0 {
        InOrderFront(kept, geometry, after);
        assert kept[n - 1] == offered[|offered| - 2];
      }
      if n > 0 && Supersedes(c, kept[n - 1]) {
        var rest, p := kept[..n - 1], kept[n - 1];
        InOrderMore(rest, c, geometry, after);
        FitsLast(start, rest, p);
        FitsLast(start, rest, c);
        SupersedingIsNoHeavier(c, p);
      } else {
        InOrderMore(kept, c, geometry, after);
        FitsLast(start, kept, c);
      }
    }
  }

  lemma NothingOffered(cs: seq<Command>, geometry: nat, after: nat, start: nat)
    requires cs == []
    ensures InOrder(cs, geometry, after)
  {
  }

  lemma SupersedingIsNoHeavier(next: Command, previous: Command)
    requires Supersedes(next, previous)
    ensures next.Input? && previous.Input? && next.message.StateSync? == previous.message.StateSync?
    ensures next.message.StateSync? ==> Load(next) == 0
  {
  }

  lemma ReadableInOrder(cs: seq<Command>, geometry: nat, after: nat)
    requires InOrder(cs, geometry, after)
    ensures AllReadable(cs)
  {
    hide ValidMessage;
  }

  /** From the Controller's messages to what the Host holds, exactly: valid input in order, coalesced by
      the inbox and consumed by an open session, leaves it open, holding and pointing as the plain fold
      of all of it, if and only if what the inbox kept fits the session's queue from snapshot to
      snapshot; otherwise the session has closed holding nothing. */
  lemma {:induction false} InboxAndSessionRefineHost(b: Inbox, s: Session, offered: seq<Command>, e: Surroundings)
    requires s.active && s.authorized && !s.blocked && e.mappable && InOrder(offered, e.geometry, s.last)
    requires b.messages == [] && !EnqueueAll(b, offered).overflow
    ensures var taken := EnqueueAll(b, offered).messages;
            var r := DrainSession(ConsumeAll(s, taken, e));
            if FitsQueue(|s.queue|, taken) then
              r.active && r.queue == [] && r.host == ReceiveAll(FeelAll(s.host, s.queue), offered)
            else !r.active && r.queue == [] && r.host.keys == {} && r.host.buttons == {}
  {
    hide ConsumeAll, EnqueueAll, FeelAll, ReceiveAll, InOrder, FitsQueue, Depth;
    TakenIsLighter(b, offered, e.geometry, s.last, |s.queue|);
    SessionFollowsHost(s, EnqueueAll(b, offered).messages, e);
    ReadableInOrder(offered, e.geometry, s.last);
    CoalescingKeepsFold(b, offered, FeelAll(s.host, s.queue));
  }

  /** Coalescing changes whether the session stays open if and only if the queue overflows without it
      and does not with it; then, and only then, the coalesced messages do better. */
  lemma {:induction false} CoalescingMattersWhen(b: Inbox, s: Session, offered: seq<Command>, e: Surroundings)
    requires s.active && s.authorized && !s.blocked && e.mappable && InOrder(offered, e.geometry, s.last)
    requires b.messages == [] && !EnqueueAll(b, offered).overflow
    ensures var taken := EnqueueAll(b, offered).messages;
            var one, all := ConsumeAll(s, taken, e), ConsumeAll(s, offered, e);
            && (one.active != all.active <==> FitsQueue(|s.queue|, taken) && !FitsQueue(|s.queue|, offered))
            && (all.active ==> one.active)
  {
    hide ConsumeAll, EnqueueAll, FeelAll, ReceiveAll, InOrder, FitsQueue, Depth;
    TakenIsLighter(b, offered, e.geometry, s.last, |s.queue|);
    SessionFollowsHost(s, EnqueueAll(b, offered).messages, e);
    SessionFollowsHost(s, offered, e);
  }

  // ---- Input that reaches the difference ----

  const CORNER := Position(0, 0)

  function Motion(n: nat): Command { Input(0, Batch(n, 1, seq(20, _ => Move(CORNER)))) }
  function Presses(n: nat): Command { Input(0, Batch(n, 1, seq(48, _ => ButtonDown(CORNER, Left)))) }

  lemma BurstLoads(n: nat)
    requires n >= 1
    ensures Load(Motion(n)) == 20 && MotionOnly(Motion(n)) && IsInput(Motion(n), 1)
    ensures Load(Presses(n)) == 96 && !MotionOnly(Presses(n)) && IsInput(Presses(n), 1)
  {
    hide MapAll;
    MappedSize(Motion(n).message.events);
    MappedSize(Presses(n).message.events);
    assert Presses(n).message.events[0] in Presses(n).message.events;
  }

  /** Commands offered so far, numbered up to `newest`: what the inbox keeps of them, and what they
      would take of the session's queue. */
  ghost predicate OfferedSoFar(b: Inbox, cs: seq<Command>, newest: nat, kept: seq<Command>, depth: nat) {
    && InOrder(cs, 1, 0) && |cs| == newest
    && (forall i :: 0 <= i < |cs| && cs[i].Input? && !cs[i].message.ReleaseAll? ==> cs[i].message.sequence <= newest)
    && EnqueueAll(b, cs).messages == kept && !EnqueueAll(b, cs).overflow
    && Depth(0, cs) == depth && (FitsQueue(0, cs) ==> depth <= SESSION_CAPACITY)
  }

  lemma OneMoreOffered(b: Inbox, front: seq<Command>, newest: nat, c: Command, kept: seq<Command>, depth: nat)
    requires OfferedSoFar(b, front, newest, kept, depth) && |kept| < 3
    requires IsInput(c, 1) && c.message.Batch? && c.message.sequence == newest + 1 && Load(c) > 0
    ensures var more := if kept != [] && Supersedes(c, kept[|kept| - 1]) then kept[..|kept| - 1] + [c] else kept + [c];
            OfferedSoFar(b, front + [c], newest + 1, more, depth + Load(c))
  {
    hide Supersedes, IsInput, InOrder, Depth, FitsQueue, Load, Enqueue, EnqueueAll;
    EnqueueLast(b, front, c);
    RoomInInbox(EnqueueAll(b, front), c);
    EnqueueShape(EnqueueAll(b, front), c);
    InputIs(c);
    InOrderMore(front, c, 1, 0);
    FitsLast(0, front, c);
  }

  lemma RoomInInbox(b: Inbox, c: Command)
    requires |b.messages| < INBOX_CAPACITY && !b.overflow
    ensures !Enqueue(b, c).overflow
  {
  }

  lemma InputIs(c: Command)
    requires IsInput(c, 1)
    ensures c.Input? && !c.message.ReleaseAll?
  {
  }

  lemma NothingYet(b: Inbox, cs: seq<Command>)
    requires cs == [] && b.messages == [] && !b.overflow
    ensures OfferedSoFar(b, cs, 0, cs, 0)
  {
  }

  lemma MotionsOffered(b: Inbox, n: nat) returns (cs: seq<Command>)
    requires b.messages == [] && !b.overflow && 1 <= n
    ensures OfferedSoFar(b, cs, n, [Motion(n)], 20 * n)
  {
    hide OfferedSoFar, IsInput, Load, Supersedes;
    BurstLoads(n);
    if n == 1 {
      cs := [];
      NothingYet(b, cs);
      OneMoreOffered(b, cs, 0, Motion(n), cs, 0);
      assert [] + [Motion(n)] == [Motion(n)];
      cs := cs + [Motion(n)];
    } else {
      cs := MotionsOffered(b, n - 1);
      MotionSupersedes(n);
      OneMoreOffered(b, cs, n - 1, Motion(n), [Motion(n - 1)], 20 * (n - 1));
      assert [Motion(n - 1)][..0] + [Motion(n)] == [Motion(n)];
      cs := cs + [Motion(n)];
    }
  }

  lemma MotionSupersedes(n: nat)
    requires n >= 2
    ensures Supersedes(Motion(n), Motion(n - 1)) && !Supersedes(Presses(n), Motion(n - 1)) && !Supersedes(Presses(n), Presses(n - 1))
  {
    hide IsInput, Load;
    BurstLoads(n);
    BurstLoads(n - 1);
  }

  lemma BurstOffered(b: Inbox) returns (offered: seq<Command>)
    requires b.messages == [] && !b.overflow
    ensures OfferedSoFar(b, offered, 7, [Motion(5), Presses(6), Presses(7)], 292)
  {
    hide OfferedSoFar, IsInput, Load, Supersedes;
    BurstLoads(6);
    BurstLoads(7);
    MotionSupersedes(6);
    MotionSupersedes(7);
    offered := MotionsOffered(b, 5);
    OneMoreOffered(b, offered, 5, Presses(6), [Motion(5)], 100);
    offered := offered + [Presses(6)];
    assert [Motion(5)] + [Presses(6)] == [Motion(5), Presses(6)];
    OneMoreOffered(b, offered, 6, Presses(7), [Motion(5), Presses(6)], 196);
    offered := offered + [Presses(7)];
    assert [Motion(5), Presses(6)] + [Presses(7)] == [Motion(5), Presses(6), Presses(7)];
  }

  /** Five batches of twenty moves and two of forty-eight button presses, 292 mapped events, close an
      empty session that consumes them one by one; coalesced they are 212, and it stays open. */
  lemma CoalescingSavesTheSession(s: Session, e: Surroundings, b: Inbox) returns (offered: seq<Command>)
    requires s.active && s.authorized && !s.blocked && s.last == 0 && s.queue == []
    requires e.mappable && e.geometry == 1 && b.messages == [] && !b.overflow
    ensures |offered| == 7 && InOrder(offered, 1, 0) && !EnqueueAll(b, offered).overflow
    ensures ConsumeAll(s, EnqueueAll(b, offered).messages, e).active && !ConsumeAll(s, offered, e).active
  {
    hide ConsumeAll, EnqueueAll, InOrder, FitsQueue, Depth, Follows, Motion, Presses;
    offered := BurstOffered(b);
    BurstFits(EnqueueAll(b, offered).messages);
    TakenIsLighter(b, offered, 1, 0, 0);
    SessionFollowsHost(s, EnqueueAll(b, offered).messages, e);
    SessionFollowsHost(s, offered, e);
  }

  lemma PressesOffered(b: Inbox) returns (offered: seq<Command>)
    requires b.messages == [] && !b.overflow
    ensures OfferedSoFar(b, offered, 3, offered, 288) && offered[2] == Presses(3)
  {
    hide OfferedSoFar, IsInput, Load, Supersedes;
    BurstLoads(1);
    BurstLoads(2);
    BurstLoads(3);
    MotionSupersedes(2);
    MotionSupersedes(3);
    var none: seq<Command> := [];
    NothingYet(b, none);
    OneMoreOffered(b, none, 0, Presses(1), none, 0);
    assert none + [Presses(1)] == [Presses(1)];
    OneMoreOffered(b, [Presses(1)], 1, Presses(2), [Presses(1)], 96);
    assert [Presses(1)] + [Presses(2)] == [Presses(1), Presses(2)];
    OneMoreOffered(b, [Presses(1), Presses(2)], 2, Presses(3), [Presses(1), Presses(2)], 192);
    offered := [Presses(1), Presses(2)] + [Presses(3)];
  }

  lemma PressesHold(h: Host, cs: seq<Command>)
    requires cs != [] && cs[|cs| - 1] == Presses(|cs|)
    ensures Left in ReceiveAll(h, cs).buttons
  {
    hide FeelAll;
    var events := Presses(|cs|).message.events;
    var before := ReceiveAll(h, cs[..|cs| - 1]);
    assert events == events[..47] + [ButtonDown(CORNER, Left)];
    FeelAllConcat(before, events[..47], [ButtonDown(CORNER, Left)]);
    FeelAllOne(FeelAll(before, events[..47]), ButtonDown(CORNER, Left));
  }

  /** Three batches of forty-eight button presses, 288 mapped events, close even a session that gets
      them through the inbox: it holds nothing, while the plain fold holds the button. */
  lemma PressesCloseTheSession(s: Session, e: Surroundings, b: Inbox) returns (offered: seq<Command>)
    requires s.active && s.authorized && !s.blocked && s.last == 0 && s.queue == []
    requires e.mappable && e.geometry == 1 && b.messages == [] && !b.overflow
    ensures InOrder(offered, 1, 0) && !EnqueueAll(b, offered).overflow && EnqueueAll(b, offered).messages == offered
    ensures var r := DrainSession(ConsumeAll(s, EnqueueAll(b, offered).messages, e));
            !r.active && r.host.keys == {} && r.host.buttons == {} && Left in ReceiveAll(s.host, offered).buttons
  {
    hide ConsumeAll, EnqueueAll, InOrder, FitsQueue, Depth, FeelAll, ReceiveAll;
    offered := PressesOffered(b);
    PressesHold(s.host, offered);
    InboxAndSessionRefineHost(b, s, offered, e);
  }

  lemma BurstFits(cs: seq<Command>)
    requires cs == [Motion(5), Presses(6), Presses(7)]
    ensures FitsQueue(0, cs)
  {
    hide Load;
    BurstLoads(5);
    BurstLoads(6);
    BurstLoads(7);
    var none: seq<Command> := [];
    FitsLast(0, none, Motion(5));
    FitsLast(0, none + [Motion(5)], Presses(6));
    FitsLast(0, none + [Motion(5)] + [Presses(6)], Presses(7));
    assert cs == none + [Motion(5)] + [Presses(6)] + [Presses(7)];
  }

  // ---- Stops ----

  datatype InboxAction = Offer(c: Command) | Boundary

  function After(b: Inbox, a: InboxAction): Inbox {
    match a
    case Offer(c) => Enqueue(b, c)
    case Boundary => b.(messages := Discarded(b.messages, false))
  }

  function AfterAll(b: Inbox, actions: seq<InboxAction>): Inbox
    decreases |actions|
  {
    if actions == [] then b else AfterAll(After(b, actions[0]), actions[1..])
  }

  lemma {:induction false} DiscardKeepsStops(messages: seq<Command>, retainEmptySync: bool)
    ensures HasStop(Discarded(messages, retainEmptySync)) == HasStop(messages)
    ensures forall c :: c in Discarded(messages, retainEmptySync) <==>
              && c in messages
              && (|| (c.Input? && c.message.ReleaseAll?) || (c.ControlRequest? && !c.start)
                  || (retainEmptySync && c.Input? && c.message.StateSync? && c.message.codes == {} && c.message.buttons == {}))
    ensures |Discarded(messages, retainEmptySync)| <= |messages|
    decreases |messages|
  {
    if messages != [] { DiscardKeepsStops(messages[1..], retainEmptySync); }
  }

  lemma StopIsNotSuperseded(stop: Command, c: Command)
    requires IsStop(stop)
    ensures !Supersedes(c, stop)
  {
  }

  lemma EnqueueKeepsStops(b: Inbox, c: Command)
    ensures HasStop(b.messages) ==> HasStop(Enqueue(b, c).messages)
    ensures Accepts(b, c) && IsStop(c) ==> HasStop(Enqueue(b, c).messages)
    ensures |b.messages| <= INBOX_CAPACITY ==> |Enqueue(b, c).messages| <= INBOX_CAPACITY
  {
    var r := Enqueue(b, c);
    if HasStop(b.messages) {
      var m :| m in b.messages && IsStop(m);
      StopIsNotSuperseded(m, c);
      var i :| 0 <= i < |b.messages| && b.messages[i] == m;
      assert r.messages[i] == m;
    }
    if Accepts(b, c) && IsStop(c) { assert c in r.messages; }
  }

  /** An accepted stop stays, and a refusal stays known, until the inbox is taken or cleared,
      whatever else is offered or discarded meanwhile; and the inbox stays within its capacity. */
  lemma {:induction false} StopsStay(b: Inbox, actions: seq<InboxAction>)
    ensures HasStop(b.messages) ==> HasStop(AfterAll(b, actions).messages)
    ensures b.overflow ==> AfterAll(b, actions).overflow
    ensures |b.messages| <= INBOX_CAPACITY ==> |AfterAll(b, actions).messages| <= INBOX_CAPACITY
    decreases |actions|
  {
    hide HasStop, Enqueue, Discarded, Accepts;
    if actions != [] {
      match actions[0] {
        case Offer(c) => EnqueueKeepsStops(b, c); OverflowStays(b, c);
        case Boundary => DiscardKeepsStops(b.messages, false);
      }
      StopsStay(After(b, actions[0]), actions[1..]);
    }
  }

  /** What a boundary leaves can only release: nothing is pressed that was not, and a stop among it
      ends control with nothing held. */
  lemma BoundaryOnlyReleases(s: Session, messages: seq<Command>, retainEmptySync: bool, e: Surroundings)
    requires s.queue == []
    ensures var r := ConsumeAll(s, Discarded(messages, retainEmptySync), e);
            && r.queue == [] && r.host.keys <= s.host.keys && r.host.buttons <= s.host.buttons
            && (r.active ==> s.active)
            && (HasStop(messages) ==> !r.active && r.host.keys == {} && r.host.buttons == {})
  {
    DiscardKeepsStops(messages, retainEmptySync);
    OnlyReleases(s, Discarded(messages, retainEmptySync), e);
  }

  lemma OnlyReleases(s: Session, cs: seq<Command>, e: Surroundings)
    requires s.queue == [] && forall c :: c in cs ==> Retained(c, true)
    ensures var r := ConsumeAll(s, cs, e);
            && r.queue == [] && r.host.keys <= s.host.keys && r.host.buttons <= s.host.buttons
            && (r.active ==> s.active)
            && (HasStop(cs) ==> !r.active && r.host.keys == {} && r.host.buttons == {})
    decreases |cs|
  {
    hide FeelAll, Decoded;
    if cs != [] {
      var front, c := cs[..|cs| - 1], cs[|cs| - 1];
      OnlyReleases(s, front, e);
      NothingToFeel(ConsumeAll(s, front, e).host, ConsumeAll(s, front, e).queue);
      assert Retained(c, true);
      if HasStop(cs) && !IsStop(c) {
        var m :| m in cs && IsStop(m);
        assert m in front;
      }
    }
  }

  // ---- The inbox as an object ----

  class InputInbox {
    var messages: seq<Command>
    var overflow: bool
    var coalesced: nat
    var overflows: nat
    var peak: nat

    function Value(): Inbox
      reads this
    {
      Inbox(messages, overflow, coalesced, overflows, peak)
    }

    constructor ()
      ensures Value() == Inbox([], false, 0, 0, 0)
    {
      messages, overflow, coalesced, overflows, peak := [], false, 0, 0, 0;
    }

    method Offer(c: Command) returns (accepted: bool)
      modifies this
      ensures Value() == Enqueue(old(Value()), c)
      ensures accepted == Accepts(old(Value()), c)
    {
      if messages != [] && Supersedes(c, messages[|messages| - 1]) {
        messages := messages[..|messages| - 1] + [c];
        coalesced := coalesced + 1;
        return true;
      }
      if |messages| >= INBOX_CAPACITY {
        overflow := true;
        overflows := overflows + 1;
        return false;
      }
      messages := messages + [c];
      peak := Max(peak, |messages|);
      accepted := true;
    }

    method Take() returns (taken: seq<Command>, overflowed: bool)
      modifies this
      ensures taken == old(messages) && overflowed == old(overflow)
      ensures Value() == old(Value()).(messages := [], overflow := false)
    {
      taken, overflowed := messages, overflow;
      messages := [];
      overflow := false;
    }

    method DiscardObsolete()
      modifies this
      ensures Value() == old(Value()).(messages := Discarded(old(messages), false))
    {
      var kept := [];
      var i := 0;
      while i < |messages|
        invariant i <= |messages| && messages == old(messages) && Value() == old(Value())
        invariant kept + Discarded(messages[i..], false) == Discarded(messages, false)
      {
        if Retained(messages[i], false) { kept := kept + [messages[i]]; }
        i := i + 1;
      }
      messages := kept;
    }

    method ContainsStop() returns (found: bool)
      ensures found == HasStop(messages)
    {
      var i := 0;
      while i < |messages|
        invariant i <= |messages| && forall k :: 0 <= k < i ==> !IsStop(messages[k])
      {
        if IsStop(messages[i]) { return true; }
        i := i + 1;
      }
      found := false;
    }
  }
}
