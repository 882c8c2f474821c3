/** The workspace control server: its event log with cursors, and requests that run at most once. */
module WorkspaceControl {
  import opened Basics

  const EVENT_CAPACITY: nat := 2048
  const PAGE_LIMIT: nat := 128
  const REQUEST_CAPACITY: nat := 4096
  const OPERATION_CAPACITY: nat := 128

  /** A request's parameters: its event cursor if it has a readable one, the operation it names, and
      everything else. */
  datatype Parameters = Parameters(cursor: Option<nat>, operation: string, rest: int)

  /** `wellFormed` says that the request id, the operation and the parameters have the form asked for. */
  datatype Request = Request(version: int, wellFormed: bool, instance: string, operation: string, id: string, parameters: Parameters)

  datatype Event = Event(cursor: nat, operation: string, state: int)

  datatype Reply =
    | Failure(error: string)
    | Capabilities(id: string, result: int)
    | Page(events: seq<Event>, gap: bool, first: nat, next: nat)
    | Operations(states: map<string, int>)
    | Invoked(id: string, result: int)

  /** What a mutating request asked for, and the reply it got. */
  datatype Stored = Stored(operation: string, parameters: Parameters, reply: Reply)

  datatype Server = Server(
    instance: string, requests: map<string, Stored>,
    operations: map<string, int>, order: seq<string>, events: seq<Event>, cursor: nat)

  function NewServer(instance: string): Server { Server(instance, map[], map[], [], [], 0) }

  predicate Mutates(operation: string) {
    operation !in {"capabilities", "status", "events", "operations", "terminal.read", "terminal.status",
                   "operation.status", "operation.result"}
  }

  // ---- Observations ----

  /** Makes room for one more operation, oldest first. */
  function Trimmed(s: Server): Server
    decreases |s.order|
  {
    if |s.order| >= OPERATION_CAPACITY then Trimmed(s.(operations := s.operations - {s.order[0]}, order := s.order[1..])) else s
  }

  function Known(s: Server, id: string): Server {
    if id in s.operations then s else var t := Trimmed(s); t.(order := t.order + [id])
  }

  function Observe(s: Server, id: string, state: int): Server {
    var k := Known(s, id);
    var events := k.events + [Event(k.cursor, id, state)];
    k.(operations := k.operations[id := state], cursor := k.cursor + 1,
       events := if |events| > EVENT_CAPACITY then events[1..] else events)
  }

  // ---- Requests ----

  predicate Numbered(s: Server) {
    && |s.events| <= EVENT_CAPACITY && |s.events| <= s.cursor
    && forall i :: 0 <= i < |s.events| ==> s.events[i].cursor == s.cursor - |s.events| + i
  }

  function First(s: Server): nat
    requires Numbered(s)
  {
    s.cursor - |s.events|
  }

  /** The page at a cursor: the retained events from there on, at most a page of them. */
  function PageAt(s: Server, cursor: nat): (page: Reply)
    requires Numbered(s) && cursor <= s.cursor
    ensures page.Page?
  {
    var first := First(s);
    var start := Max(cursor, first);
    var end := Min(s.cursor, start + PAGE_LIMIT);
    Page(s.events[start - first..end - first], cursor < first, first, end)
  }

  /** Whether a request gets as far as running an operation. */
  predicate Runs(s: Server, r: Request) {
    && r.version == 1 && r.wellFormed
    && (r.operation == "capabilities"
        || (&& r.instance == s.instance && r.operation !in {"events", "operations"}
            && (Mutates(r.operation) ==> r.id !in s.requests && |s.requests| < REQUEST_CAPACITY)))
  }

  /** The reply, given the result the operation has if it runs. */
  function ReplyTo(s: Server, r: Request, result: int): Reply
    requires Numbered(s)
  {
    if r.version != 1 then Failure("protocol_version_incompatible")
    else if !r.wellFormed then Failure("invalid_request")
    else if r.operation == "capabilities" then Capabilities(r.id, result)
    else if r.instance != s.instance then Failure("instance_changed")
    else if r.operation == "events" then
      if r.parameters.cursor.None? || r.parameters.cursor.value > s.cursor then Failure("invalid_cursor")
      else PageAt(s, r.parameters.cursor.value)
    else if r.operation == "operations" then Operations(s.operations)
    else if Mutates(r.operation) && r.id in s.requests then
      var seen := s.requests[r.id];
      if seen.operation == r.operation && seen.parameters == r.parameters then seen.reply else Failure("request_id_conflict")
    else if Mutates(r.operation) && |s.requests| >= REQUEST_CAPACITY then Failure("request_history_full")
    else Invoked(r.id, result)
  }

  function Dispatched(s: Server, r: Request, result: int): Server {
    if Runs(s, r) && Mutates(r.operation) then
      s.(requests := s.requests[r.id := Stored(r.operation, r.parameters, Invoked(r.id, result))])
    else s
  }

  // ---- Runs: observations and requests, with one reader following the events ----

  datatype Action =
    | Observation(id: string, state: int)
    | Call(request: Request, result: int)
    | Read

  /** The server, every event ever observed, the mutating requests that ran, and a reader: where it
      will read next, what it has received, and what pages marked as gaps have skipped. */
  datatype World = World(s: Server, log: seq<Event>, ran: seq<string>, at: nat, received: seq<Event>, skipped: set<nat>)

  function NewWorld(instance: string): World { World(NewServer(instance), [], [], 0, [], {}) }

  function Between(a: nat, b: nat): (r: set<nat>)
    ensures forall c: nat :: c in r <==> a <= c < b
  {
    if a >= b then {} else Between(a, b - 1) + {b - 1}
  }

  /** The request of a reader that has got as far as a cursor. */
  function EventsFrom(instance: string, at: nat): Request {
    Request(1, true, instance, "events", "reader", Parameters(Some(at), "", 0))
  }

  function ReadPage(w: World): World
    requires Numbered(w.s) && w.at <= w.s.cursor
  {
    var page := ReplyTo(w.s, EventsFrom(w.s.instance, w.at), 0);
    w.(at := page.next, received := w.received + page.events,
       skipped := w.skipped + if page.gap then Between(w.at, page.first) else {})
  }

  function Next(w: World, a: Action): World
    requires Numbered(w.s) && w.at <= w.s.cursor
  {
    match a
    case Observation(id, state) => w.(s := Observe(w.s, id, state), log := w.log + [Event(w.s.cursor, id, state)])
    case Call(r, result) =>
      w.(s := Dispatched(w.s, r, result), ran := if Runs(w.s, r) && Mutates(r.operation) then w.ran + [r.id] else w.ran)
    case Read => ReadPage(w)
  }

  // ---- The event log ----

  /** What is retained is the newest part of everything observed. */
  predicate Logged(s: Server, log: seq<Event>) {
    && |log| == s.cursor && |s.events| == Min(s.cursor, EVENT_CAPACITY)
    && s.events == log[|log| - |s.events|..]
    && forall i :: 0 <= i < |log| ==> log[i].cursor == i
  }

  lemma LoggedIsNumbered(s: Server, log: seq<Event>)
    requires Logged(s, log)
    ensures Numbered(s) && First(s) == s.cursor - Min(s.cursor, EVENT_CAPACITY)
  {
  }

  lemma NewestKept(log: seq<Event>, kept: seq<Event>, e: Event, capacity: nat)
    requires capacity > 0 && |kept| == Min(|log|, capacity) && kept == log[|log| - |kept|..]
    ensures var more, all := kept + [e], log + [e];
            var r := if |more| > capacity then more[1..] else more;
            |r| == Min(|all|, capacity) && r == all[|all| - |r|..]
  {
    assert kept + [e] == (log + [e])[|log| - |kept|..];
  }

  lemma ObserveKeepsLogged(s: Server, log: seq<Event>, id: string, state: int)
    requires Logged(s, log)
    ensures Logged(Observe(s, id, state), log + [Event(s.cursor, id, state)])
  {
    hide Trimmed, Min;
    TrimmedKeepsEvents(s);
    NewestKept(log, s.events, Event(s.cursor, id, state), EVENT_CAPACITY);
  }

  lemma TrimmedKeepsEvents(s: Server)
    ensures var t := Trimmed(s); t.events == s.events && t.cursor == s.cursor && t.requests == s.requests && t.instance == s.instance
    decreases |s.order|
  {
  }

  lemma PageBounds(s: Server, cursor: nat)
    requires Numbered(s) && cursor <= s.cursor
    ensures var p, first := PageAt(s, cursor), First(s);
            var start := if p.gap then p.first else cursor;
            && p.first == first && (p.gap <==> cursor < first) && p.next == Min(s.cursor, start + PAGE_LIMIT)
            && p.events == s.events[start - first..p.next - first]
  {
  }

  /** A page is a stretch of what was observed, of 128 events or of all there are, starting where asked
      unless that is gone, in which case it says so; a reader misses events exactly when more than 2048
      were observed since its cursor. */
  lemma PageIsStretch(s: Server, log: seq<Event>, cursor: nat)
    requires Logged(s, log) && cursor <= s.cursor && Numbered(s)
    ensures var p := PageAt(s, cursor);
            var start := if p.gap then p.first else cursor;
            && start <= p.next <= s.cursor && p.events == log[start..p.next]
            && (p.gap <==> s.cursor - cursor > 2048)
            && (p.gap ==> p.first == s.cursor - 2048)
            && |p.events| == Min(128, s.cursor - start)
  {
    var p := PageAt(s, cursor);
    var start := if p.gap then p.first else cursor;
    var first := |log| - |s.events|;
    PageBounds(s, cursor);
    LoggedIsNumbered(s, log);
    hide PageAt, Numbered;
    SliceOfSlice(log, first, start, p.next);
  }

  lemma SliceOfSlice(log: seq<Event>, first: nat, start: nat, end: nat)
    requires first <= start <= end <= |log|
    ensures log[first..][start - first..end - first] == log[start..end]
  {
  }

  // ---- The reader ----

  predicate FromLog(received: seq<Event>, log: seq<Event>, at: nat) {
    && at <= |log|
    && forall i :: 0 <= i < |received| ==> received[i].cursor < at && received[i] == log[received[i].cursor]
  }

  predicate Ascending(received: seq<Event>) {
    forall i, j :: 0 <= i < j < |received| ==> received[i].cursor < received[j].cursor
  }

  /** Of the cursors passed, the skipped ones are exactly those not received. */
  predicate Accounted(received: seq<Event>, skipped: set<nat>, at: nat) {
    && (forall c :: c in skipped ==> c < at)
    && forall c: nat :: c < at ==> (c in skipped <==> !Has(received, c))
  }

  predicate ReaderOk(w: World) {
    && Logged(w.s, w.log) && w.at <= w.s.cursor
    && FromLog(w.received, w.log, w.at) && Ascending(w.received) && Accounted(w.received, w.skipped, w.at)
  }

  predicate Has(received: seq<Event>, c: nat) { exists i :: 0 <= i < |received| && received[i].cursor == c }

  lemma ReadKeepsReader(w: World)
    requires ReaderOk(w) && Numbered(w.s)
    ensures ReaderOk(ReadPage(w))
  {
    hide Logged, PageAt, Has, Accounted, FromLog, Ascending;
    PageIsStretch(w.s, w.log, w.at);
    LogCursors(w.s, w.log);
    var p := PageAt(w.s, w.at);
    var start := if p.gap then p.first else w.at;
    PageCursors(w, p);
    PageAccounted(w.received, w.log, w.skipped, w.at, p.events, start);
    PageFromLog(w.received, w.log, w.at, p.events, start);
  }

  predicate Stretch(events: seq<Event>, start: nat) { forall i :: 0 <= i < |events| ==> events[i].cursor == start + i }

  lemma PageFromLog(received: seq<Event>, log: seq<Event>, at: nat, page: seq<Event>, start: nat)
    requires FromLog(received, log, at) && Ascending(received) && Stretch(page, start)
    requires at <= start <= start + |page| <= |log| && page == log[start..start + |page|]
    ensures FromLog(received + page, log, start + |page|) && Ascending(received + page)
  {
  }

  lemma PageAccounted(received: seq<Event>, log: seq<Event>, skipped: set<nat>, at: nat, page: seq<Event>, start: nat)
    requires Accounted(received, skipped, at) && at <= start && Stretch(page, start)
    requires FromLog(received, log, at)
    ensures Accounted(received + page, skipped + Between(at, start), start + |page|)
  {
    hide Has;
    forall c: nat | c < start + |page| ensures c in skipped + Between(at, start) <==> !Has(received + page, c) {
      HasEither(received, page, start, c);
      if c >= at { NotYet(received, log, at, c); }
    }
  }

  lemma NotYet(received: seq<Event>, log: seq<Event>, at: nat, c: nat)
    requires FromLog(received, log, at) && c >= at
    ensures !Has(received, c)
  {
  }

  lemma HasEither(received: seq<Event>, page: seq<Event>, start: nat, c: nat)
    requires Stretch(page, start)
    ensures Has(received + page, c) <==> Has(received, c) || start <= c < start + |page|
  {
    var all := received + page;
    if Has(received, c) {
      var i :| 0 <= i < |received| && received[i].cursor == c;
      assert all[i].cursor == c;
    }
    if start <= c < start + |page| { assert all[|received| + (c - start)].cursor == c; }
    if Has(all, c) {
      var i :| 0 <= i < |all| && all[i].cursor == c;
      if i < |received| { assert received[i].cursor == c; } else { assert page[i - |received|].cursor == c; }
    }
  }

  lemma LogCursors(s: Server, log: seq<Event>)
    requires Logged(s, log)
    ensures |log| == s.cursor && forall i :: 0 <= i < |log| ==> log[i].cursor == i
  {
  }

  lemma PageCursors(w: World, p: Reply)
    requires p.Page? && Logged(w.s, w.log) && w.at <= w.s.cursor && Numbered(w.s) && p == PageAt(w.s, w.at)
    ensures var start := if p.gap then p.first else w.at;
            && w.at <= start && |p.events| == p.next - start
            && (p.gap <==> w.at < p.first)
            && Stretch(p.events, start) && (!p.gap ==> Between(w.at, start) == {})
  {
    PageIsStretch(w.s, w.log, w.at);
  }

  // ---- Requests run at most once ----

  predicate NoRepeats(ids: seq<string>) { forall i, j :: 0 <= i < j < |ids| ==> ids[i] != ids[j] }

  lemma OneMoreId(ids: seq<string>, id: string)
    requires NoRepeats(ids) && id !in ids
    ensures NoRepeats(ids + [id])
  {
  }

  lemma OneMoreRequest(requests: map<string, Stored>, id: string, stored: Stored)
    requires id !in requests
    ensures |requests[id := stored]| == |requests| + 1
  {
    assert requests[id := stored].Keys == requests.Keys + {id};
    assert |requests| == |requests.Keys|;
  }

  ghost predicate RanOnce(w: World) {
    && NoRepeats(w.ran)
    && (forall id :: id in w.s.requests <==> id in w.ran)
    && |w.s.requests| <= REQUEST_CAPACITY
    && (forall id :: id in w.s.requests ==> w.s.requests[id].reply.Invoked? && w.s.requests[id].reply.id == id)
  }

  lemma CallKeepsRanOnce(w: World, r: Request, result: int)
    requires RanOnce(w) && Numbered(w.s) && w.at <= w.s.cursor
    ensures RanOnce(Next(w, Call(r, result)))
  {
    hide Mutates, Numbered, ReplyTo, NoRepeats;
    if Runs(w.s, r) && Mutates(r.operation) {
      MutationIsFresh(w.s, r);
      OneMoreId(w.ran, r.id);
      OneMoreRequest(w.s.requests, r.id, Stored(r.operation, r.parameters, Invoked(r.id, result)));
    }
  }

  lemma MutationIsFresh(s: Server, r: Request)
    requires Runs(s, r) && Mutates(r.operation)
    ensures r.id !in s.requests && |s.requests| < REQUEST_CAPACITY
  {
  }

  // ---- Operations ----

  /** The operations listed are the ones in order, each once, and at most as many as are kept. */
  ghost predicate Listed(s: Server) {
    && |s.order| <= OPERATION_CAPACITY
    && (forall id :: id in s.operations <==> id in s.order)
    && NoRepeats(s.order)
  }

  lemma TrimmedOnce(s: Server)
    requires Listed(s)
    ensures Trimmed(s) == if |s.order| < OPERATION_CAPACITY then s
                          else s.(operations := s.operations - {s.order[0]}, order := s.order[1..])
  {
    if |s.order| == OPERATION_CAPACITY { TrimmedEnough(s.(operations := s.operations - {s.order[0]}, order := s.order[1..])); }
  }

  lemma TrimmedEnough(s: Server)
    requires |s.order| < OPERATION_CAPACITY
    ensures Trimmed(s) == s
  {
  }

  lemma TrimmedKeepsListed(s: Server)
    requires Listed(s)
    ensures var t := Trimmed(s); Listed(t) && |t.order| < OPERATION_CAPACITY
    ensures forall id :: id in Trimmed(s).operations ==> id in s.operations && Trimmed(s).operations[id] == s.operations[id]
  {
    hide Trimmed;
    TrimmedOnce(s);
    if |s.order| == OPERATION_CAPACITY { FrontRemoved(s.order); }
  }

  lemma FrontRemoved(order: seq<string>)
    requires order != [] && NoRepeats(order)
    ensures forall x :: x in order[1..] <==> x in order && x != order[0]
    ensures NoRepeats(order[1..])
  {
    forall x | x in order && x != order[0] ensures x in order[1..] {
      var i :| 0 <= i < |order| && order[i] == x;
      assert order[1..][i - 1] == x;
    }
  }

  lemma KnownKeepsListed(s: Server, id: string)
    requires Listed(s)
    ensures var k := Known(s, id);
            && |k.order| <= OPERATION_CAPACITY && id in k.order
            && NoRepeats(k.order)
            && (forall x :: x in k.order <==> x in k.operations || x == id)
            && (forall x :: x in k.operations ==> x in s.operations && k.operations[x] == s.operations[x])
            && k.requests == s.requests && k.instance == s.instance
  {
    hide Trimmed;
    TrimmedKeepsListed(s);
    TrimmedKeepsEvents(s);
  }

  /** Observing an operation lists it with its newest state, keeps the others kept as they were, and
      keeps the list within bounds and without repetition. An operation is dropped only for a new one
      when 128 are listed, and then it is the one listed longest. */
  lemma ObserveKeepsListed(s: Server, id: string, state: int)
    requires Listed(s)
    ensures var o := Observe(s, id, state);
            && Listed(o) && o.operations[id] == state
            && (forall other :: other in o.operations && other != id ==>
                  other in s.operations && o.operations[other] == s.operations[other])
            && (forall other :: other in s.operations && other !in o.operations ==>
                  id !in s.operations && |s.order| == 128 && other == s.order[0])
            && o.order == (if id in s.operations then s.order
                           else if |s.order| == 128 then s.order[1..] + [id] else s.order + [id])
            && o.requests == s.requests && o.instance == s.instance
  {
    hide Known, NoRepeats;
    KnownKeepsListed(s, id);
    KnownDrops(s, id);
  }

  lemma KnownDrops(s: Server, id: string)
    requires Listed(s)
    ensures var k := Known(s, id);
            && (forall other :: other in s.operations && other !in k.operations ==>
                  id !in s.operations && |s.order| == OPERATION_CAPACITY && other == s.order[0])
            && k.order == (if id in s.operations then s.order
                           else if |s.order| == OPERATION_CAPACITY then s.order[1..] + [id] else s.order + [id])
  {
    hide Trimmed, NoRepeats;
    TrimmedOnce(s);
  }

  // ---- Whole runs ----

  ghost predicate Good(w: World) { ReaderOk(w) && RanOnce(w) && Listed(w.s) && Numbered(w.s) }

  lemma {:induction false} NextKeepsGood(w: World, a: Action)
    requires Good(w)
    ensures Good(Next(w, a))
  {
    hide Observe, Has, Listed, Mutates, Dispatched, PageAt, RanOnce, Logged;
    match a {
      case Observation(id, state) =>
        ObserveKeepsLogged(w.s, w.log, id, state);
        ObserveKeepsListed(w.s, id, state);
        LoggedIsNumbered(Next(w, a).s, Next(w, a).log);
        LogCursors(w.s, w.log);
        LogCursors(Next(w, a).s, Next(w, a).log);
        SameRan(w, a);
      case Call(r, result) => CallKeepsRanOnce(w, r, result); SameLists(w.s, r, result, w.log);
      case Read => ReadKeepsReader(w); SameRan(w, a);
    }
  }

  lemma SameRan(w: World, a: Action)
    requires RanOnce(w) && Numbered(w.s) && w.at <= w.s.cursor && Listed(w.s) && !a.Call?
    ensures RanOnce(Next(w, a))
  {
    hide Observe, PageAt, Mutates, NoRepeats, Listed, Dispatched, Numbered;
    if a.Observation? { ObserveKeepsListed(w.s, a.id, a.state); }
  }

  lemma SameLists(s: Server, r: Request, result: int, log: seq<Event>)
    ensures Listed(s) ==> Listed(Dispatched(s, r, result))
    ensures Numbered(s) ==> Numbered(Dispatched(s, r, result))
    ensures Logged(s, log) ==> Logged(Dispatched(s, r, result), log)
    ensures Dispatched(s, r, result).cursor == s.cursor
  {
    hide Mutates, Runs;
  }

  ghost predicate Reaches(from: World, actions: seq<Action>, to: World)
    decreases |actions|
  {
    if actions == [] then to == from
    else Good(from) && Reaches(Next(from, actions[0]), actions[1..], to)
  }

  lemma {:induction false} RunKeepsGood(from: World, actions: seq<Action>, to: World)
    requires Good(from) && Reaches(from, actions, to)
    ensures Good(to)
    decreases |actions|
  {
    hide Good, Next;
    if actions != [] {
      NextIsGood(from, actions[0]);
      RunKeepsGood(Next(from, actions[0]), actions[1..], to);
    }
  }

  lemma {:induction false} NextIsGood(w: World, a: Action)
    requires Good(w)
    ensures Numbered(w.s) && w.at <= w.s.cursor && Good(Next(w, a))
  {
    hide Logged, Has, Listed;
    assert Numbered(w.s) && w.at <= w.s.cursor;
    NextKeepsGood(w, a);
  }

  /** Every run can be taken: the preconditions of the steps never fail. */
  lemma {:induction false} EveryRunExists(from: World, actions: seq<Action>) returns (to: World)
    requires Good(from)
    ensures Reaches(from, actions, to)
    decreases |actions|
  {
    hide Good, Next;
    if actions == [] {
      to := from;
    } else {
      NextIsGood(from, actions[0]);
      to := EveryRunExists(Next(from, actions[0]), actions[1..]);
    }
  }

  lemma NewIsGood(instance: string)
    ensures Good(NewWorld(instance))
  {
    hide Logged, Accounted, FromLog, Ascending, NoRepeats;
    var w := NewWorld(instance);
    NewIsRead(w);
    NewIsOnce(w);
  }

  lemma NewIsRead(w: World)
    requires w.s.cursor == 0 && w.s.events == [] && w.log == [] && w.at == 0 && w.received == [] && w.skipped == {}
    ensures ReaderOk(w) && Numbered(w.s)
  {
    hide Has;
    assert w.s.events == w.log[0..];
  }

  lemma NewIsOnce(w: World)
    requires w.ran == [] && w.s.requests == map[] && w.s.operations == map[] && w.s.order == []
    ensures RanOnce(w) && Listed(w.s)
  {
  }

  /** Over any interleaving, a reader following the cursor from the start receives observed events
      in order and each at most once, and what it has passed without receiving was skipped by a page
      that said so. */
  lemma ReaderMissesOnlyGaps(instance: string, actions: seq<Action>, w: World)
    requires Reaches(NewWorld(instance), actions, w)
    ensures Ascending(w.received) && FromLog(w.received, w.log, w.at)
    ensures forall c: nat :: c < w.at ==> (c in w.skipped <==> !Has(w.received, c))
  {
    hide Reaches;
    NewIsGood(instance);
    RunKeepsGood(NewWorld(instance), actions, w);
    LogCursors(w.s, w.log);
  }

  /** Every operation but the eight that only read is remembered with its reply; the reading ones leave
      nothing behind and run however often they are asked. */
  lemma ChangesAreRemembered(s: Server, r: Request, result: int)
    requires Runs(s, r)
    ensures var after := Dispatched(s, r, result);
            var onlyReads := r.operation in {"capabilities", "status", "events", "operations",
                                             "terminal.read", "terminal.status", "operation.status", "operation.result"};
            && (onlyReads ==> after == s && Runs(after, r))
            && (!onlyReads ==> !Runs(after, r))
            && (!onlyReads ==> after == s.(requests := s.requests[r.id := Stored(r.operation, r.parameters, Invoked(r.id, result))]))
  {
  }

  /** Nothing runs for another instance or in another version; a request that is not understood, or whose
      cursor has not been given out, is told so. */
  lemma StrangersAreRefused(s: Server, r: Request, result: int)
    requires Numbered(s)
    ensures r.version != 1 ==> !Runs(s, r) && ReplyTo(s, r, result) == Failure("protocol_version_incompatible")
    ensures r.version == 1 && !r.wellFormed ==> !Runs(s, r) && ReplyTo(s, r, result) == Failure("invalid_request")
    ensures r.version == 1 && r.wellFormed && r.instance != s.instance && r.operation != "capabilities" ==>
              !Runs(s, r) && ReplyTo(s, r, result) == Failure("instance_changed")
    ensures r.version == 1 && r.wellFormed && r.instance == s.instance && r.operation == "events" ==>
              !Runs(s, r) &&
              if r.parameters.cursor.Some? && r.parameters.cursor.value <= s.cursor then ReplyTo(s, r, result).Page?
              else ReplyTo(s, r, result) == Failure("invalid_cursor")
    ensures !Runs(s, r) ==> Dispatched(s, r, result) == s
    ensures
      && r.version == 1 && r.wellFormed && r.instance == s.instance && r.id !in s.requests && |s.requests| >= 4096
      && r.operation !in {"capabilities", "status", "events", "operations",
                          "terminal.read", "terminal.status", "operation.status", "operation.result"}
      ==> !Runs(s, r) && ReplyTo(s, r, result) == Failure("request_history_full")
  {
  }

  /** What a request gets back when it runs is its own result under its own id, and only then. */
  lemma ResultsAreAnswered(s: Server, r: Request, result: int)
    requires Numbered(s) && forall id :: id in s.requests ==> s.requests[id].reply.Invoked?
    ensures Runs(s, r) <==> ReplyTo(s, r, result) == Capabilities(r.id, result)
                            || (ReplyTo(s, r, result) == Invoked(r.id, result) && !(Mutates(r.operation) && r.id in s.requests))
    ensures r.version == 1 && r.wellFormed && r.operation == "capabilities" ==> Runs(s, r)
    ensures r.version == 1 && r.wellFormed && r.instance == s.instance && r.operation !in {"capabilities", "events", "operations"} ==>
              (Runs(s, r) <==> !Mutates(r.operation) || (r.id !in s.requests && |s.requests| < 4096))
    ensures r.version == 1 && r.wellFormed && r.instance == s.instance && r.operation == "operations" ==>
              ReplyTo(s, r, result) == Operations(s.operations)
  {
    hide Mutates, Numbered, PageAt;
  }

  /** Every mutating request id runs at most once in a server's life, within the history it keeps. */
  lemma MutationsRunOnce(instance: string, actions: seq<Action>, w: World)
    requires Reaches(NewWorld(instance), actions, w)
    ensures NoRepeats(w.ran) && forall id :: id in w.ran <==> id in w.s.requests
    ensures |w.s.requests| <= 4096
  {
    hide Reaches;
    NewIsGood(instance);
    RunKeepsGood(NewWorld(instance), actions, w);
  }

  lemma RequestsStay(w: World, a: Action, id: string)
    requires Good(w) && id in w.s.requests && Numbered(w.s) && w.at <= w.s.cursor
    ensures var n := Next(w, a).s; id in n.requests && n.requests[id] == w.s.requests[id] && n.instance == w.s.instance
  {
    hide Observe, Has, Logged;
    if a.Observation? { ObserveKeepsListed(w.s, a.id, a.state); }
  }

  lemma {:induction false} RunKeepsRequest(from: World, actions: seq<Action>, to: World, id: string)
    requires Good(from) && Reaches(from, actions, to) && id in from.s.requests
    ensures id in to.s.requests && to.s.requests[id] == from.s.requests[id] && to.s.instance == from.s.instance
    decreases |actions|
  {
    hide Good, Next;
    if actions != [] {
      NextIsGood(from, actions[0]);
      RequestsStay(from, actions[0], id);
      RunKeepsRequest(Next(from, actions[0]), actions[1..], to, id);
    }
  }

  /** A mutating request that ran, repeated at any later time, does not run again: with the same
      content it gets the reply of the first time, with other content a conflict. */
  lemma {:induction false} RepeatsDoNotRun(w: World, r: Request, result: int, actions: seq<Action>, later: World, again: Request, other: int)
    requires Good(w) && Runs(w.s, r) && Mutates(r.operation)
    requires w.at <= w.s.cursor && Numbered(w.s) && Reaches(Next(w, Call(r, result)), actions, later)
    requires again.version == 1 && again.wellFormed && again.instance == r.instance && again.id == r.id
    requires Mutates(again.operation) && Numbered(later.s)
    ensures !Runs(later.s, again)
    ensures ReplyTo(later.s, again, other) ==
              if again.operation == r.operation && again.parameters == r.parameters then ReplyTo(w.s, r, result)
              else Failure("request_id_conflict")
  {
    hide Good, Reaches;
    NextIsGood(w, Call(r, result));
    RunKeepsRequest(Next(w, Call(r, result)), actions, later, r.id);
  }

  // ---- The server as an object ----

  class WorkspaceControlServer {
    const instance: string
    var requests: map<string, Stored>
    var operations: map<string, int>
    var order: seq<string>
    var events: seq<Event>
    var cursor: nat

    function Value(): Server
      reads this
    {
      Server(instance, requests, operations, order, events, cursor)
    }

    constructor (instance: string)
      ensures Value() == NewServer(instance)
    {
      this.instance := instance;
      requests := map[];
      operations := map[];
      order := [];
      events := [];
      cursor := 0;
    }

    method ObserveOperation(id: string, state: int)
      modifies this
      ensures Value() == Observe(old(Value()), id, state)
    {
      if id !in operations {
        while |order| >= OPERATION_CAPACITY
          invariant Trimmed(Value()) == Trimmed(old(Value()))
          invariant events == old(events) && cursor == old(cursor)
          decreases |order|
        {
          operations := operations - {order[0]};
          order := order[1..];
        }
        order := order + [id];
      }
      operations := operations[id := state];
      events := events + [Event(cursor, id, state)];
      cursor := cursor + 1;
      if |events| > EVENT_CAPACITY { events := events[1..]; }
    }

    method EventPage(from: nat) returns (reply: Reply)
      requires Numbered(Value()) && from <= cursor
      ensures reply == PageAt(Value(), from)
    {
      var page: seq<Event> := [];
      var first := cursor - |events|;
      var next := Max(from, first);
      ghost var start := next;
      var i := 0;
      while i < |events|
        invariant i <= |events| && start <= cursor
        invariant next == Max(start, Min(first + i, start + PAGE_LIMIT))
        invariant page == events[start - first..next - first]
      {
        if events[i].cursor >= next && |page| < PAGE_LIMIT {
          page := page + [events[i]];
          next := events[i].cursor + 1;
        }
        i := i + 1;
      }
      reply := Page(page, from < first, first, next);
    }

    /** Handles one request; `result` stands for what the operation returns if it runs. */
    method Dispatch(r: Request, result: int) returns (reply: Reply, ran: bool)
      requires Numbered(Value())
      modifies this
      ensures Value() == Dispatched(old(Value()), r, result)
      ensures reply == ReplyTo(old(Value()), r, result)
      ensures ran == Runs(old(Value()), r)
    {
      hide PageAt;
      ran := false;
      if r.version != 1 { return Failure("protocol_version_incompatible"), false; }
      if !r.wellFormed { return Failure("invalid_request"), false; }
      if r.operation == "capabilities" { return Capabilities(r.id, result), true; }
      if r.instance != instance { return Failure("instance_changed"), false; }
      if r.operation == "events" {
        if r.parameters.cursor.None? || r.parameters.cursor.value > cursor { return Failure("invalid_cursor"), false; }
        reply := EventPage(r.parameters.cursor.value);
        return;
      }
      if r.operation == "operations" { return Operations(operations), false; }
      var writes := Mutates(r.operation);
      if writes && r.id in requests {
        var seen := requests[r.id];
        if seen.operation == r.operation && seen.parameters == r.parameters { return seen.reply, false; }
        return Failure("request_id_conflict"), false;
      }
      if writes && |requests| >= REQUEST_CAPACITY { return Failure("request_history_full"), false; }
      reply := Invoked(r.id, result);
      ran := true;
      if writes { requests := requests[r.id := Stored(r.operation, r.parameters, reply)]; }
    }
  }
}
