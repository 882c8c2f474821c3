/** The Host's input session: what one taken batch of messages does to what the Host holds. */
module RemoteInputSession {
  import opened Basics
  import opened RemoteInputModel
  import opened Events = RemoteInputEventProofs

  const SESSION_CAPACITY: nat := 256

  /** What arrives: input of one session epoch, or a request to start or stop control. */
  datatype Command =
    | Input(epoch: int, message: Message)
    | ControlRequest(epoch: int, start: bool)

  datatype Session = Session(authorized: bool, blocked: bool, active: bool, last: nat, queue: seq<Event>, host: Host)

  /** What holds while one taken batch is consumed. `mappable` says that positions map onto the
      desktop, which depends on its geometry and capture region alone. */
  datatype Surroundings = Surroundings(geometry: nat, geometryValid: bool, navigating: bool, mappable: bool)

  // ---- Mapping onto the desktop ----

  predicate Positioned(e: Event) { !e.KeyDown? && !e.KeyUp? }

  /** A button or a wheel becomes a move to its place, and then itself. */
  function Mapped(e: Event): seq<Event> { if Positioned(e) && !e.Move? then [Move(e.at), e] else [e] }

  function MapAll(events: seq<Event>): seq<Event>
    decreases |events|
  {
    if events == [] then [] else MapAll(events[..|events| - 1]) + Mapped(events[|events| - 1])
  }

  predicate Maps(events: seq<Event>, e: Surroundings) { e.mappable || forall x :: x in events ==> !Positioned(x) }

  // ---- Consuming ----

  function Released(s: Session): Session { s.(queue := [], host := s.host.(keys := {}, buttons := {})) }

  function PausedSession(s: Session): Session { Released(s).(active := false) }

  function DrainSession(s: Session): Session {
    if s.blocked || !s.active then s else s.(host := FeelAll(s.host, s.queue), queue := [])
  }

  /** Queues mapped events, or fails closed when they are none or do not fit. */
  function EnqueueBatch(s: Session, sequence: nat, mapped: seq<Event>): Session {
    if s.blocked then s.(last := Max(s.last, sequence))
    else if !s.active || !s.authorized || sequence <= s.last then s
    else if mapped == [] || |s.queue| + |mapped| > SESSION_CAPACITY then PausedSession(s)
    else s.(last := sequence, queue := s.queue + mapped)
  }

  function Synchronize(s: Session, sequence: nat, codes: set<Word>, buttons: set<Button>): Session {
    if s.blocked then s.(last := Max(s.last, sequence))
    else if !s.active || !s.authorized || sequence <= s.last then s
    else
      var d := DrainSession(s);
      d.(last := sequence, host := Intersect(d.host, codes, buttons))
  }

  function Consume(s: Session, c: Command, e: Surroundings): Session {
    match c
    case ControlRequest(_, start) =>
      if !start || !e.geometryValid then PausedSession(s)
      else if s.blocked || !s.authorized then s
      else Released(s).(active := true)
    case Input(_, ReleaseAll) => PausedSession(s)
    case Input(_, Batch(sequence, geometry, events)) =>
      if geometry != e.geometry then Released(s)
      else if !Maps(events, e) then s
      else EnqueueBatch(s, sequence, MapAll(events))
    case Input(_, StateSync(sequence, geometry, codes, buttons)) =>
      if geometry != e.geometry && !e.navigating then Released(s) else Synchronize(s, sequence, codes, buttons)
  }

  function ConsumeAll(s: Session, cs: seq<Command>, e: Surroundings): Session
    decreases |cs|
  {
    if cs == [] then s else Consume(ConsumeAll(s, cs[..|cs| - 1], e), cs[|cs| - 1], e)
  }

  lemma ConsumeLast(s: Session, front: seq<Command>, c: Command, e: Surroundings)
    ensures ConsumeAll(s, front + [c], e) == Consume(ConsumeAll(s, front, e), c, e)
  {
    assert (front + [c])[..|front|] == front;
  }

  /** A batch that the session would queue but for its capacity. */
  predicate Overflows(s: Session, c: Command, e: Surroundings) {
    && c.Input? && c.message.Batch? && c.message.geometry == e.geometry && Maps(c.message.events, e)
    && s.active && s.authorized && !s.blocked && c.message.sequence > s.last
    && |s.queue| + |MapAll(c.message.events)| > SESSION_CAPACITY
  }

  predicate NeverOverflows(s: Session, cs: seq<Command>, e: Surroundings)
    decreases |cs|
  {
    cs == [] ||
    (NeverOverflows(s, cs[..|cs| - 1], e) && !Overflows(ConsumeAll(s, cs[..|cs| - 1], e), cs[|cs| - 1], e))
  }

  lemma NeverOverflowsLast(s: Session, front: seq<Command>, c: Command, e: Surroundings)
    ensures NeverOverflows(s, front + [c], e) <==>
              NeverOverflows(s, front, e) && !Overflows(ConsumeAll(s, front, e), c, e)
  {
    assert (front + [c])[..|front|] == front;
  }

  // ---- Mapping keeps the meaning ----

  lemma {:induction false} MappingKeepsMeaning(h: Host, events: seq<Event>)
    ensures FeelAll(h, MapAll(events)) == FeelAll(h, events)
    decreases |events|
  {
    hide Feel;
    if events != [] {
      var front, last := events[..|events| - 1], events[|events| - 1];
      MappingKeepsMeaning(h, front);
      FeelAllConcat(h, MapAll(front), Mapped(last));
      FeelAllConcat(h, front, [last]);
      assert front + [last] == events;
      MappedOne(FeelAll(h, front), last);
    }
  }

  /** Mapping adds moves and nothing else: every other event is injected once, as it is and in order. */
  lemma {:induction false} MappingAddsOnlyMoves(events: seq<Event>)
    ensures NonMoves(MapAll(events)) == NonMoves(events)
    decreases |events|
  {
    hide Mapped, NonMoves;
    if events == [] {
      assert MapAll(events) == events;
    } else {
      var front, last := events[..|events| - 1], events[|events| - 1];
      MappingAddsOnlyMoves(front);
      NonMovesConcat(MapAll(front), Mapped(last));
      NonMovesConcat(front, [last]);
      MappedNonMoves(last);
      assert front + [last] == events;
    }
  }

  lemma MappedNonMoves(e: Event)
    ensures NonMoves(Mapped(e)) == NonMoves([e])
  {
    if Positioned(e) && !e.Move? { assert [Move(e.at), e][1..] == [e]; }
  }

  lemma {:induction false} NonMovesConcat(a: seq<Event>, b: seq<Event>)
    ensures NonMoves(a + b) == NonMoves(a) + NonMoves(b)
    decreases |a|
  {
    if a == [] {
      assert a + b == b && [] + NonMoves(b) == NonMoves(b);
    } else {
      assert (a + b)[1..] == a[1..] + b;
      NonMovesConcat(a[1..], b);
      var first := if a[0].Move? then [] else [a[0]];
      assert first + (NonMoves(a[1..]) + NonMoves(b)) == first + NonMoves(a[1..]) + NonMoves(b);
    }
  }

  lemma MappedOne(h: Host, e: Event)
    ensures FeelAll(h, Mapped(e)) == FeelAll(h, [e]) == Feel(h, e)
  {
    FeelAllOne(h, e);
    if Positioned(e) && !e.Move? {
      assert Mapped(e) == [Move(e.at)] + [e];
      FeelAllConcat(h, [Move(e.at)], [e]);
      FeelAllOne(h, Move(e.at));
      FeelAllOne(Feel(h, Move(e.at)), e);
    }
  }

  /** Mapping nothing gives nothing, moves stay one event each, and nothing takes more than two. */
  lemma {:induction false} MappedSize(events: seq<Event>)
    ensures |events| <= |MapAll(events)| <= 2 * |events|
    ensures (forall x :: x in events ==> x.Move?) ==> MapAll(events) == events
    ensures (forall x :: x in events ==> Positioned(x) && !x.Move?) ==> |MapAll(events)| == 2 * |events|
    decreases |events|
  {
    if events != [] {
      var front, last := events[..|events| - 1], events[|events| - 1];
      MappedSize(front);
      assert forall x :: x in front ==> x in events;
      assert last in events && front + [last] == events;
    }
  }

  lemma NothingToFeel(h: Host, q: seq<Event>)
    requires q == []
    ensures FeelAll(h, q) == h
  {
  }

  // ---- The session follows the abstract Host, as far as its queue goes ----

  /** Valid input of one geometry in sequence order, after a given number. */
  predicate InOrder(cs: seq<Command>, geometry: nat, after: nat) {
    && (forall c :: c in cs ==> IsInput(c, geometry) && c.message.sequence > after)
    && (forall i, j :: 0 <= i < j < |cs| && cs[i].Input? && cs[j].Input? && !cs[i].message.ReleaseAll? && !cs[j].message.ReleaseAll? ==>
          cs[i].message.sequence < cs[j].message.sequence)
  }

  predicate IsInput(c: Command, geometry: nat) {
    c.Input? && !c.message.ReleaseAll? && ValidMessage(c.message) && c.message.geometry == geometry
  }

  /** The plain fold: batches and snapshots as received, and every request releasing. */
  function ReceiveCommand(h: Host, c: Command): Host {
    if c.Input? then Receive(h, c.message) else h.(keys := {}, buttons := {})
  }

  function ReceiveAll(h: Host, cs: seq<Command>): Host
    decreases |cs|
  {
    if cs == [] then h else ReceiveCommand(ReceiveAll(h, cs[..|cs| - 1]), cs[|cs| - 1])
  }

  lemma ReceiveLast(h: Host, front: seq<Command>, c: Command)
    ensures ReceiveAll(h, front + [c]) == ReceiveCommand(ReceiveAll(h, front), c)
  {
    assert (front + [c])[..|front|] == front;
  }

  /** How many events a batch takes in the queue. */
  function Load(c: Command): nat { if c.Input? && c.message.Batch? then |MapAll(c.message.events)| else 0 }

  /** How deep the queue gets: batches add, a snapshot drains. */
  function Depth(start: nat, cs: seq<Command>): nat
    decreases |cs|
  {
    if cs == [] then start
    else if cs[|cs| - 1].Input? && cs[|cs| - 1].message.StateSync? then 0
    else Depth(start, cs[..|cs| - 1]) + Load(cs[|cs| - 1])
  }

  /** No batch ever finds too little room behind those since the last snapshot. */
  predicate FitsQueue(start: nat, cs: seq<Command>)
    decreases |cs|
  {
    cs == [] ||
    (FitsQueue(start, cs[..|cs| - 1])
     && (Load(cs[|cs| - 1]) == 0 || Depth(start, cs[..|cs| - 1]) + Load(cs[|cs| - 1]) <= SESSION_CAPACITY))
  }

  lemma FitsLast(start: nat, front: seq<Command>, c: Command)
    ensures Depth(start, front + [c]) == if c.Input? && c.message.StateSync? then 0 else Depth(start, front) + Load(c)
    ensures FitsQueue(start, front + [c]) <==>
              FitsQueue(start, front) && (Load(c) == 0 || Depth(start, front) + Load(c) <= SESSION_CAPACITY)
  {
    assert (front + [c])[..|front|] == front;
  }

  /** While it is open, and holding nothing from when it is not. */
  predicate Follows(s: Session, r: Session, cs: seq<Command>) {
    if FitsQueue(|s.queue|, cs) then
      && r.active && r.authorized && !r.blocked && |r.queue| == Depth(|s.queue|, cs)
      && FeelAll(r.host, r.queue) == ReceiveAll(FeelAll(s.host, s.queue), cs)
    else !r.active && !r.blocked && r.queue == [] && r.host.keys == {} && r.host.buttons == {}
  }

  lemma InOrderFront(cs: seq<Command>, geometry: nat, after: nat)
    requires InOrder(cs, geometry, after) && cs != []
    ensures InOrder(cs[..|cs| - 1], geometry, after) && IsInput(cs[|cs| - 1], geometry)
    ensures cs[|cs| - 1].Input? && !cs[|cs| - 1].message.ReleaseAll? && cs[|cs| - 1].message.sequence > after
    ensures forall i :: 0 <= i < |cs| - 1 ==> cs[i].Input? && !cs[i].message.ReleaseAll? && cs[i].message.sequence < cs[|cs| - 1].message.sequence
  {
    assert cs[|cs| - 1] in cs;
    forall i | 0 <= i < |cs| - 1 ensures cs[i].Input? && !cs[i].message.ReleaseAll? { assert cs[i] in cs; }
  }

  /** Exactly when an open session overflows: valid input in order either fits its queue, snapshot to
      snapshot, and the session then holds and points as the plain fold of all of it, or does not, and
      the session has closed holding nothing. */
  lemma SessionFollowsHost(s: Session, cs: seq<Command>, e: Surroundings)
    requires s.active && s.authorized && !s.blocked && e.mappable && InOrder(cs, e.geometry, s.last)
    ensures Follows(s, ConsumeAll(s, cs, e), cs)
    ensures ConsumeAll(s, cs, e).active <==> FitsQueue(|s.queue|, cs)
  {
    hide ConsumeAll, FitsQueue, Depth, ReceiveAll, FeelAll;
    if cs == [] {
      FollowsUpTo(s, cs, e, s.last);
    } else {
      InOrderFront(cs, e.geometry, s.last);
      FollowsUpTo(s, cs, e, cs[|cs| - 1].message.sequence);
    }
  }

  lemma {:induction false} FollowsUpTo(s: Session, cs: seq<Command>, e: Surroundings, n: nat)
    requires s.active && s.authorized && !s.blocked && e.mappable && InOrder(cs, e.geometry, s.last)
    requires s.last <= n && forall i :: 0 <= i < |cs| && cs[i].Input? && !cs[i].message.ReleaseAll? ==> cs[i].message.sequence <= n
    ensures Follows(s, ConsumeAll(s, cs, e), cs) && ConsumeAll(s, cs, e).last <= n
    decreases |cs|
  {
    hide FeelAll, ConsumeAll, Consume, InOrder, IsInput, FitsQueue, Depth, ReceiveAll, Receive;
    if cs == [] {
      NothingConsumed(s, cs, e);
    } else {
      var front, c := cs[..|cs| - 1], cs[|cs| - 1];
      InOrderFront(cs, e.geometry, s.last);
      FollowsUpTo(s, front, e, c.message.sequence - 1);
      assert front + [c] == cs;
      ConsumeLast(s, front, c, e);
      FitsLast(|s.queue|, front, c);
      ReceiveLast(FeelAll(s.host, s.queue), front, c);
      OneMore(ConsumeAll(s, front, e), c, e);
    }
  }

  lemma NothingConsumed(s: Session, cs: seq<Command>, e: Surroundings)
    requires cs == []
    ensures ConsumeAll(s, cs, e) == s && FitsQueue(|s.queue|, cs) && Depth(|s.queue|, cs) == |s.queue|
    ensures ReceiveAll(FeelAll(s.host, s.queue), cs) == FeelAll(s.host, s.queue)
  {
  }

  lemma OneMore(r: Session, c: Command, e: Surroundings)
    requires IsInput(c, e.geometry) && c.message.sequence > r.last && e.mappable
    ensures var t := Consume(r, c, e);
            && t.last <= c.message.sequence
            && (!r.active && !r.blocked ==> t == r)
            && (r.active && r.authorized && !r.blocked ==>
                  if c.message.StateSync? || |r.queue| + Load(c) <= SESSION_CAPACITY then
                    && t.active && t.authorized && !t.blocked
                    && |t.queue| == (if c.message.StateSync? then 0 else |r.queue| + Load(c))
                    && FeelAll(t.host, t.queue) == ReceiveCommand(FeelAll(r.host, r.queue), c)
                  else t == PausedSession(r))
            && (c.message.Batch? ==> Load(c) > 0) && (c.message.StateSync? ==> Load(c) == 0)
  {
    hide FeelAll, Intersect;
    if c.message.Batch? {
      MappedSize(c.message.events);
      FeelAllConcat(r.host, r.queue, MapAll(c.message.events));
      MappingKeepsMeaning(FeelAll(r.host, r.queue), c.message.events);
    } else {
      var t := Consume(r, c, e);
      if t.queue == [] { NothingToFeel(t.host, t.queue); }
    }
  }

  // ---- Opening and closing ----

  /** A session opens exactly on a request to start, authorized, not blocked, with a usable desktop, and
      then holds nothing; it closes on any request to stop or release, on a start it cannot use, and on a
      batch that its queue has no room for or that is empty. */
  lemma OpensOnlyOnRequest(s: Session, c: Command, e: Surroundings)
    ensures var t := Consume(s, c, e);
            && (!s.active ==> (t.active <==> c.ControlRequest? && c.start && e.geometryValid && s.authorized && !s.blocked))
            && (c.ControlRequest? && t.active && !s.blocked && s.authorized ==>
                  t.queue == [] && t.host.keys == {} && t.host.buttons == {} && t.last == s.last)
            && (s.active ==> (!t.active <==>
                  || (c.ControlRequest? && (!c.start || !e.geometryValid))
                  || (c.Input? && c.message.ReleaseAll?)
                  || Overflows(s, c, e)
                  || (c.Input? && c.message.Batch? && c.message.events == [] && c.message.geometry == e.geometry
                      && s.authorized && !s.blocked && c.message.sequence > s.last)))
            && (!t.active && s.active ==> t.queue == [] && t.host.keys == {} && t.host.buttons == {})
  {
    hide FeelAll, Intersect;
    if c.Input? && c.message.Batch? { hide MapAll; MappedSize(c.message.events); }
  }

  /** Old numbers, strange geometries and blocked or unauthorized sessions let no input through. */
  lemma RefusedInputChangesNothing(s: Session, c: Command, e: Surroundings)
    requires c.Input? && !c.message.ReleaseAll?
    ensures var t := Consume(s, c, e);
            && (c.message.sequence <= s.last || !s.active || !s.authorized || s.blocked ==>
                  t.host.pointer == s.host.pointer && t.host.keys <= s.host.keys && t.host.buttons <= s.host.buttons
                  && (t.queue == s.queue || t.queue == []))
            && (c.message.Batch? && c.message.geometry != e.geometry ==>
                  t == s.(queue := [], host := s.host.(keys := {}, buttons := {})))
            && t.last == (if c.message.sequence > s.last && Counts(s, c, e) then c.message.sequence else s.last)
  {
    hide FeelAll, MapAll;
    if c.message.Batch? { MappedSize(c.message.events); }
  }

  /** Whether the session remembers the number of a message: if it takes it, or is blocked meanwhile. */
  predicate Counts(s: Session, c: Command, e: Surroundings)
    requires c.Input? && !c.message.ReleaseAll?
  {
    && (c.message.geometry == e.geometry || (c.message.StateSync? && e.navigating))
    && (c.message.Batch? ==> Maps(c.message.events, e))
    && (s.blocked
        || (s.active && s.authorized
            && (c.message.Batch? ==> c.message.events != [] && |s.queue| + |MapAll(c.message.events)| <= 256)))
  }

  /** A batch is dropped if it has an event with a place and places cannot be mapped; nothing else is. */
  lemma UnmappableIsDropped(s: Session, c: Command, e: Surroundings)
    requires c.Input? && c.message.Batch? && c.message.geometry == e.geometry
    ensures !e.mappable && (exists x :: x in c.message.events && !x.KeyDown? && !x.KeyUp?) ==> Consume(s, c, e) == s
    ensures e.mappable || (forall x :: x in c.message.events ==> x.KeyDown? || x.KeyUp?) ==>
              Consume(s, c, e) == EnqueueBatch(s, c.message.sequence, MapAll(c.message.events))
  {
    hide MapAll, EnqueueBatch;
  }
}
