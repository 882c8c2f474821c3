/** The rendezvous service's signal store: what is published on a session's lane is what is fetched. */
module SignalStore {
  import opened TransportDocument

  datatype Snapshot = Snapshot(kind: string, sdp: string, candidates: seq<string>, revision: nat, updated: nat)

  /** When each known session expires, and the newest signal on each lane. */
  datatype Store = Store(expiry: map<string, nat>, signals: map<string, Snapshot>)

  datatype Response = Response(status: nat, body: string)

  const HOST := "host"
  const CONTROLLER := "controller"

  predicate IsLane(lane: string) { lane == HOST || lane == CONTROLLER }

  function SignalKey(session: string, lane: string): string { session + "|" + lane }

  /** Decimal digits. */
  function Digits(n: nat): string {
    if n < 10 then [('0' as int + n) as char] else Digits(n / 10) + [('0' as int + n % 10) as char]
  }

  function Expired(s: Store, now: nat): set<string> { set id | id in s.expiry && now >= s.expiry[id] }

  function ExpiredKeys(s: Store, now: nat): set<string> {
    (set id | id in Expired(s, now) :: SignalKey(id, HOST)) + (set id | id in Expired(s, now) :: SignalKey(id, CONTROLLER))
  }

  function Cleaned(s: Store, now: nat): Store { Store(s.expiry - Expired(s, now), s.signals - ExpiredKeys(s, now)) }

  predicate IsSignal(rows: seq<Row>) { rows != [] && |rows[0]| >= 3 && rows[0][0] == "signal" }

  predicate IsCandidate(row: Row) { |row| >= 3 && row[0] == "candidate" }

  /** The candidate lines of a document's rows, in order. */
  function Candidates(rows: seq<Row>): seq<string> {
    if rows == [] then []
    else Candidates(rows[..|rows| - 1])
         + var row := rows[|rows| - 1]; if IsCandidate(row) then [row[1] + "\t" + row[2]] else []
  }

  function Revision(s: Store, key: string): nat { if key in s.signals then s.signals[key].revision else 0 }

  predicate Publishes(s: Store, now: nat, session: string, body: string) {
    Parse(body).Ok? && IsSignal(Parse(body).value) && session in s.expiry && now < s.expiry[session]
  }

  function Published(s: Store, now: nat, stamp: nat, session: string, lane: string, body: string): Store {
    if Parse(body).Failed? || !IsSignal(Parse(body).value) then s
    else
      var c := Cleaned(s, now);
      if session !in c.expiry then c
      else
        var rows, key := Parse(body).value, SignalKey(session, lane);
        var snapshot := Snapshot(rows[0][1], rows[0][2], Candidates(rows[1..]), Revision(c, key) + 1, stamp);
        c.(signals := c.signals[key := snapshot])
  }

  function PublishResponse(s: Store, now: nat, stamp: nat, session: string, lane: string, body: string): Response {
    if Parse(body).Failed? || !IsSignal(Parse(body).value) then Response(400, "invalid signal body\n")
    else if session !in Cleaned(s, now).expiry then Response(404, "")
    else
      var revision := Revision(Cleaned(s, now), SignalKey(session, lane)) + 1;
      Response(200, FormatRow(["publish", "1", "none", Digits(revision), Digits(stamp)]))
  }

  /** A stored candidate line as a row: split at its first tab. */
  function CandidateRow(line: string): seq<Row> {
    var tab := IndexOf(line, '\t', 0);
    if tab < 0 then [] else [["candidate", line[..tab], line[tab + 1..]]]
  }

  function CandidateRows(lines: seq<string>): seq<Row> {
    if lines == [] then [] else CandidateRow(lines[0]) + CandidateRows(lines[1..])
  }

  function FetchRow(s: Snapshot): Row { ["fetch", "1", "none", s.kind, s.sdp, Digits(s.revision), Digits(s.updated)] }

  function FetchResponse(s: Store, now: nat, session: string, lane: string): Response {
    var c := Cleaned(s, now);
    var key := SignalKey(session, lane);
    if session !in c.expiry || key !in c.signals then Response(404, "")
    else Response(200, FormatRows([FetchRow(c.signals[key])] + CandidateRows(c.signals[key].candidates)))
  }

  // ---- Keys ----

  /** Different sessions or lanes never share a signal. */
  lemma KeysAreDistinct(session: string, lane: string, session': string, lane': string)
    requires IsLane(lane) && IsLane(lane') && SignalKey(session, lane) == SignalKey(session', lane')
    ensures session == session' && lane == lane'
  {
    var k, k' := SignalKey(session, lane), SignalKey(session', lane');
    assert k[|k| - 1] == lane[|lane| - 1] && k'[|k'| - 1] == lane'[|lane'| - 1];
    assert lane == lane';
    assert k[..|session|] == session && k'[..|session'|] == session';
  }

  lemma CleanedKeeps(s: Store, now: nat, session: string, lane: string)
    requires session in s.expiry && now < s.expiry[session] && IsLane(lane)
    ensures var c := Cleaned(s, now);
            && session in c.expiry && c.expiry[session] == s.expiry[session]
            && (SignalKey(session, lane) in c.signals <==> SignalKey(session, lane) in s.signals)
            && (SignalKey(session, lane) in s.signals ==> c.signals[SignalKey(session, lane)] == s.signals[SignalKey(session, lane)])
  {
    if SignalKey(session, lane) in ExpiredKeys(s, now) {
      var id, l :| id in Expired(s, now) && IsLane(l) && SignalKey(id, l) == SignalKey(session, lane);
      KeysAreDistinct(id, l, session, lane);
      assert false;
    }
  }

  // ---- Candidates come back ----

  /** A candidate line splits back into its media id and candidate if and only if the id has no tab. */
  lemma CandidateSplits(mid: string, candidate: string)
    ensures CandidateRow(mid + "\t" + candidate) == [["candidate", mid, candidate]] <==> '\t' !in mid
  {
    var line := mid + "\t" + candidate;
    var tab := IndexOf(line, '\t', 0);
    assert line[|mid|] == '\t';
    if '\t' in mid {
      var i :| 0 <= i < |mid| && mid[i] == '\t';
      assert line[i] == '\t';
      assert tab < |mid|;
      assert CandidateRow(line)[0][1] == line[..tab];
    } else {
      assert forall i :: 0 <= i < |mid| ==> line[i] == mid[i];
      assert tab == |mid| && line[..tab] == mid && line[tab + 1..] == candidate;
    }
  }

  /** The candidate rows of a document, as they will be fetched. */
  function CandidatesOf(rows: seq<Row>): seq<Row> {
    if rows == [] then []
    else CandidatesOf(rows[..|rows| - 1])
         + var row := rows[|rows| - 1];
           if |row| >= 3 && row[0] == "candidate" then [["candidate", row[1], row[2]]] else []
  }

  predicate PlainIds(rows: seq<Row>) {
    forall i :: 0 <= i < |rows| && |rows[i]| >= 3 && rows[i][0] == "candidate" ==> '\t' !in rows[i][1]
  }

  lemma {:induction false} CandidateRowsConcat(a: seq<string>, b: seq<string>)
    ensures CandidateRows(a + b) == CandidateRows(a) + CandidateRows(b)
  {
    hide CandidateRow;
    if a == [] {
      assert a + b == b;
      assert [] + CandidateRows(b) == CandidateRows(b);
    } else {
      assert (a + b)[1..] == a[1..] + b;
      CandidateRowsConcat(a[1..], b);
      assert CandidateRow(a[0]) + (CandidateRows(a[1..]) + CandidateRows(b))
             == CandidateRow(a[0]) + CandidateRows(a[1..]) + CandidateRows(b);
    }
  }

  lemma OneCandidateRow(line: string)
    ensures CandidateRows([line]) == CandidateRow(line)
  {
    assert [line][1..] == [];
    assert CandidateRow(line) + [] == CandidateRow(line);
  }

  /** The candidates of a document come back exactly if and only if no media id among them has a tab;
      as many come back in any case. */
  lemma {:induction false} CandidatesComeBack(rows: seq<Row>)
    ensures |CandidateRows(Candidates(rows))| == |CandidatesOf(rows)|
    ensures CandidateRows(Candidates(rows)) == CandidatesOf(rows) <==> PlainIds(rows)
  {
    hide CandidateRow, PlainIds;
    if rows == [] {
      PlainIdsLast(rows);
    } else {
      var front, row := rows[..|rows| - 1], rows[|rows| - 1];
      CandidatesComeBack(front);
      PlainIdsLast(rows);
      if IsCandidate(row) {
        var line := row[1] + "\t" + row[2];
        CandidateRowsConcat(Candidates(front), [line]);
        OneCandidateRow(line);
        CandidateSplits(row[1], row[2]);
        TabbedLineIsOneRow(row[1], row[2]);
        SameEnds(CandidateRows(Candidates(front)), CandidateRow(line), CandidatesOf(front), [["candidate", row[1], row[2]]]);
      } else {
        assert Candidates(front) + [] == Candidates(front) && CandidatesOf(front) + [] == CandidatesOf(front);
      }
    }
  }

  lemma PlainIdsLast(rows: seq<Row>)
    ensures rows == [] ==> PlainIds(rows)
    ensures rows != [] ==>
              (PlainIds(rows) <==>
                 && PlainIds(rows[..|rows| - 1])
                 && (|rows[|rows| - 1]| >= 3 && rows[|rows| - 1][0] == "candidate" ==> '\t' !in rows[|rows| - 1][1]))
  {
    if rows != [] {
      forall i | 0 <= i < |rows| - 1 ensures rows[i] == rows[..|rows| - 1][i] {}
    }
  }

  lemma TabbedLineIsOneRow(mid: string, candidate: string)
    ensures |CandidateRow(mid + "\t" + candidate)| == 1
  {
    assert (mid + "\t" + candidate)[|mid|] == '\t';
  }

  lemma SameEnds<T>(a: seq<T>, b: seq<T>, c: seq<T>, d: seq<T>)
    requires |a| == |c| && |b| == |d|
    ensures a + b == c + d <==> a == c && b == d
  {
    if a + b == c + d {
      assert a == (a + b)[..|a|] && c == (c + d)[..|c|];
      assert b == (a + b)[|a|..] && d == (c + d)[|c|..];
    }
  }

  lemma CandidateRowsNotBlank(lines: seq<string>)
    ensures forall i :: 0 <= i < |CandidateRows(lines)| ==> !Blank(CandidateRows(lines)[i])
  {
  }

  // ---- Publishing and fetching, with other requests between ----

  datatype Request =
    | Register(session: string, expires: nat)
    | Publish(stamp: nat, session: string, lane: string, body: string)
    | Fetch(session: string, lane: string)

  datatype Timed = Timed(now: nat, request: Request)

  /** Requests on the two lanes there are; every request first drops what has expired. */
  function Handle(s: Store, t: Timed): Store {
    match t.request
    case Register(session, expires) => var c := Cleaned(s, t.now); c.(expiry := c.expiry[session := expires])
    case Publish(stamp, session, lane, body) => Published(s, t.now, stamp, session, lane, body)
    case Fetch(_, _) => Cleaned(s, t.now)
  }

  function HandleAll(s: Store, ts: seq<Timed>): Store
    decreases |ts|
  {
    if ts == [] then s else HandleAll(Handle(s, ts[0]), ts[1..])
  }

  /** A request that leaves a lane of a live session alone: it comes before the session expires, and
      is not itself a publication there. */
  predicate LeavesAlone(s: Store, t: Timed, session: string, lane: string) {
    && session in s.expiry && t.now < s.expiry[session]
    && (t.request.Publish? ==> IsLane(t.request.lane))
    && !(t.request.Publish? && t.request.session == session && t.request.lane == lane
         && Publishes(s, t.now, session, t.request.body))
  }

  predicate AllLeaveAlone(s: Store, ts: seq<Timed>, session: string, lane: string)
    decreases |ts|
  {
    ts == [] || (LeavesAlone(s, ts[0], session, lane) && AllLeaveAlone(Handle(s, ts[0]), ts[1..], session, lane))
  }

  predicate HasSignal(s: Store, session: string, lane: string, snapshot: Snapshot) {
    SignalKey(session, lane) in s.signals && s.signals[SignalKey(session, lane)] == snapshot
  }

  lemma OthersUnaffected(s: Store, t: Timed, session: string, lane: string, snapshot: Snapshot)
    requires HasSignal(s, session, lane, snapshot) && IsLane(lane) && LeavesAlone(s, t, session, lane)
    ensures HasSignal(Handle(s, t), session, lane, snapshot)
  {
    hide Parse, IsSignal, Candidates, Cleaned;
    CleanedKeeps(s, t.now, session, lane);
    if t.request.Publish? {
      if SignalKey(t.request.session, t.request.lane) == SignalKey(session, lane) {
        KeysAreDistinct(t.request.session, t.request.lane, session, lane);
      }
    }
  }

  lemma {:induction false} RunLeavesSignal(s: Store, ts: seq<Timed>, session: string, lane: string, snapshot: Snapshot)
    requires HasSignal(s, session, lane, snapshot) && IsLane(lane) && AllLeaveAlone(s, ts, session, lane)
    ensures HasSignal(HandleAll(s, ts), session, lane, snapshot)
    decreases |ts|
  {
    hide HasSignal, Handle, LeavesAlone;
    if ts != [] {
      OthersUnaffected(s, ts[0], session, lane, snapshot);
      RunLeavesSignal(Handle(s, ts[0]), ts[1..], session, lane, snapshot);
    }
  }

  lemma PublishStores(s: Store, now: nat, stamp: nat, session: string, lane: string, body: string)
    requires Publishes(s, now, session, body) && IsLane(lane)
    ensures var rows := Parse(body).value;
            && HasSignal(Published(s, now, stamp, session, lane, body), session, lane,
                 Snapshot(rows[0][1], rows[0][2], Candidates(rows[1..]), Revision(s, SignalKey(session, lane)) + 1, stamp))
            && PublishResponse(s, now, stamp, session, lane, body).status == 200
  {
    hide Parse, Candidates, FormatRow, Cleaned;
    CleanedKeeps(s, now, session, lane);
  }

  lemma FetchReturns(s: Store, now: nat, session: string, lane: string, snapshot: Snapshot)
    requires HasSignal(s, session, lane, snapshot) && IsLane(lane) && session in s.expiry && now < s.expiry[session]
    ensures FetchResponse(s, now, session, lane)
              == Response(200, FormatRows([FetchRow(snapshot)] + CandidateRows(snapshot.candidates)))
  {
    hide FormatRows, CandidateRows, FetchRow, Cleaned;
    CleanedKeeps(s, now, session, lane);
  }

  /** What is published on a live session's lane is what is fetched from it, whatever other requests
      come between: the same description, one revision on from before, and as many candidates in order,
      which are the same ones if and only if no media id among them has a tab. */
  lemma {:induction false} PublishThenFetch(s: Store, now: nat, stamp: nat, session: string, lane: string, body: string, ts: seq<Timed>, later: nat)
    requires Publishes(s, now, session, body) && IsLane(lane)
    requires AllLeaveAlone(Published(s, now, stamp, session, lane, body), ts, session, lane)
    requires var end := HandleAll(Published(s, now, stamp, session, lane, body), ts);
             session in end.expiry && later < end.expiry[session]
    ensures var rows := Parse(body).value;
            var end := HandleAll(Published(s, now, stamp, session, lane, body), ts);
            var r := FetchResponse(end, later, session, lane);
            var key := session + "|" + lane;
            var revision := 1 + if key in s.signals then s.signals[key].revision else 0;
            var fetch := ["fetch", "1", "none", rows[0][1], rows[0][2], Digits(revision), Digits(stamp)];
            && r.status == 200 && Parse(r.body).Ok?
            && |Parse(r.body).value| == 1 + |CandidatesOf(rows[1..])| && Parse(r.body).value[0] == fetch
            && (Parse(r.body).value == [fetch] + CandidatesOf(rows[1..]) <==> PlainIds(rows[1..]))
  {
    hide Parse, FormatRows, HandleAll, AllLeaveAlone, HasSignal, Candidates, CandidateRows, CandidatesOf, Digits, Published,
         FetchResponse, PlainIds, NonBlank;
    var rows := Parse(body).value;
    var snapshot := Snapshot(rows[0][1], rows[0][2], Candidates(rows[1..]), Revision(s, SignalKey(session, lane)) + 1, stamp);
    PublishStores(s, now, stamp, session, lane, body);
    RunLeavesSignal(Published(s, now, stamp, session, lane, body), ts, session, lane, snapshot);
    FetchReturns(HandleAll(Published(s, now, stamp, session, lane, body), ts), later, session, lane, snapshot);
    CandidatesComeBack(rows[1..]);
    CandidateRowsNotBlank(snapshot.candidates);
    RoundTrip([FetchRow(snapshot)] + CandidateRows(snapshot.candidates));
    SameEnds([FetchRow(snapshot)], CandidateRows(snapshot.candidates), [FetchRow(snapshot)], CandidatesOf(rows[1..]));
  }

  // ---- Answers ----

  /** A number is written in decimal digits that read back as it, without leading zeros. */
  lemma {:induction false} DigitsAreDecimal(n: nat)
    ensures ReadDigits(Digits(n)) == n && Digits(n) != [] && (n > 0 ==> Digits(n)[0] != '0')
    ensures forall i :: 0 <= i < |Digits(n)| ==> '0' <= Digits(n)[i] <= '9'
  {
    if n >= 10 {
      DigitsAreDecimal(n / 10);
      assert Digits(n)[..|Digits(n)| - 1] == Digits(n / 10);
    }
  }

  function ReadDigits(s: string): int
    decreases |s|
  {
    if s == [] then 0 else 10 * ReadDigits(s[..|s| - 1]) + (s[|s| - 1] as int - '0' as int)
  }

  /** A document is published if and only if it parses, starts with a row of a signal, a kind and a
      description, and its session is live; a live session is told its new revision. */
  lemma {:induction false} PublishIsAnswered(s: Store, now: nat, stamp: nat, session: string, lane: string, body: string)
    requires IsLane(lane)
    ensures var r := PublishResponse(s, now, stamp, session, lane, body);
            var parsed := Parse(body);
            var signal := parsed.Ok? && parsed.value != [] && |parsed.value[0]| >= 3 && parsed.value[0][0] == "signal";
            var live := session in s.expiry && now < s.expiry[session];
            var key := session + "|" + lane;
            var revision := 1 + if key in s.signals then s.signals[key].revision else 0;
            && r.status == (if !signal then 400 else if !live then 404 else 200)
            && (r.status == 200 ==> Parse(r.body) == Ok([["publish", "1", "none", Digits(revision), Digits(stamp)]]))
            && (r.status == 400 ==> Published(s, now, stamp, session, lane, body) == s)
            && (r.status == 404 ==> Published(s, now, stamp, session, lane, body) == Cleaned(s, now))
  {
    hide Parse, Digits, Candidates, FormatRow, FormatRows;
    CleanedExpiry(s, now, session);
    if session in s.expiry && now < s.expiry[session] {
      CleanedKeeps(s, now, session, lane);
      var row := ["publish", "1", "none", Digits(Revision(s, SignalKey(session, lane)) + 1), Digits(stamp)];
      FormatOne(row);
      RoundTrip([row]);
    }
  }

  lemma CleanedExpiry(s: Store, now: nat, session: string)
    ensures session in Cleaned(s, now).expiry <==> session in s.expiry && now < s.expiry[session]
    ensures session in Cleaned(s, now).expiry ==> Cleaned(s, now).expiry[session] == s.expiry[session]
  {
    hide SignalKey;
  }

  lemma FormatOne(row: Row)
    ensures FormatRows([row]) == FormatRow(row)
  {
    hide FormatRow;
    assert [row][1..] == [];
    assert FormatRow(row) + [] == FormatRow(row);
  }

  /** A signal is found if and only if its session is live and something was published on the lane. */
  lemma FetchIsAnswered(s: Store, now: nat, session: string, lane: string)
    requires IsLane(lane)
    ensures var r := FetchResponse(s, now, session, lane);
            r.status == if session in s.expiry && now < s.expiry[session] && SignalKey(session, lane) in s.signals then 200 else 404
  {
    hide FormatRows, CandidateRows, FetchRow, Cleaned;
    CleanedExpiry(s, now, session);
    if session in s.expiry && now < s.expiry[session] { CleanedKeeps(s, now, session, lane); }
  }

  /** Dropping what has expired drops exactly the sessions past their time, and with each both its lanes. */
  lemma ExpiredAreDropped(s: Store, now: nat, session: string, lane: string)
    requires IsLane(lane)
    ensures var c := Cleaned(s, now);
            && (session in c.expiry <==> session in s.expiry && now < s.expiry[session])
            && (SignalKey(session, lane) in c.signals <==>
                  SignalKey(session, lane) in s.signals && (session in s.expiry ==> now < s.expiry[session]))
  {
    CleanedExpiry(s, now, session);
    if SignalKey(session, lane) in ExpiredKeys(s, now) {
      var id, l :| id in Expired(s, now) && IsLane(l) && SignalKey(id, l) == SignalKey(session, lane);
      KeysAreDistinct(id, l, session, lane);
    }
  }

  // ---- The store as an object ----

  class RendezvousServerState {
    var expiry: map<string, nat>
    var signals: map<string, Snapshot>

    function Value(): Store
      reads this
    {
      Store(expiry, signals)
    }

    constructor ()
      ensures Value() == Store(map[], map[])
    {
      expiry := map[];
      signals := map[];
    }

    method CleanupExpired(now: nat)
      modifies this
      ensures Value() == Cleaned(old(Value()), now)
    {
      hide SignalKey;
      ghost var was := Value();
      var ids := expiry.Keys;
      ghost var gone: set<string> := {};
      while ids != {}
        invariant ids <= was.expiry.Keys && gone == Expired(was, now) - ids
        invariant expiry == was.expiry - gone
        invariant signals == was.signals - ((set id | id in gone :: SignalKey(id, HOST)) + (set id | id in gone :: SignalKey(id, CONTROLLER)))
        decreases ids
      {
        var id :| id in ids;
        assert id !in gone && expiry[id] == was.expiry[id];
        if now >= expiry[id] {
          signals := signals - {SignalKey(id, HOST)};
          signals := signals - {SignalKey(id, CONTROLLER)};
          expiry := expiry - {id};
          MoreKeys(gone, id, HOST);
          MoreKeys(gone, id, CONTROLLER);
          gone := gone + {id};
        }
        ids := ids - {id};
      }
      assert gone == Expired(was, now);
    }

    method PublishSignal(now: nat, stamp: nat, session: string, lane: string, body: string) returns (response: Response)
      modifies this
      ensures Value() == Published(old(Value()), now, stamp, session, lane, body)
      ensures response == PublishResponse(old(Value()), now, stamp, session, lane, body)
    {
      hide Cleaned, Parse, FormatRow, Candidates, Digits;
      var parsed := ParseTransportDocument(body);
      if parsed.Failed? || !IsSignal(parsed.value) { return Response(400, "invalid signal body\n"); }
      CleanupExpired(now);
      if session !in expiry { return Response(404, ""); }
      var rows := parsed.value;
      var lines := CandidateLines(rows);
      var key := SignalKey(session, lane);
      var revision := (if key in signals then signals[key].revision else 0) + 1;
      signals := signals[key := Snapshot(rows[0][1], rows[0][2], lines, revision, stamp)];
      var line := FormatSignalEventLine(["publish", "1", "none", Digits(revision), Digits(stamp)]);
      response := Response(200, line);
    }

    method CandidateLines(rows: seq<Row>) returns (lines: seq<string>)
      requires rows != []
      ensures lines == Candidates(rows[1..])
    {
      lines := [];
      var i := 1;
      while i < |rows|
        invariant 1 <= i <= |rows| && lines == Candidates(rows[1..i])
      {
        assert rows[1..i + 1][..i - 1] == rows[1..i];
        if IsCandidate(rows[i]) { lines := lines + [rows[i][1] + "\t" + rows[i][2]]; }
        i := i + 1;
      }
      assert rows[1..|rows|] == rows[1..];
    }

    method FetchSignal(now: nat, session: string, lane: string) returns (response: Response)
      modifies this
      ensures Value() == Cleaned(old(Value()), now)
      ensures response == FetchResponse(old(Value()), now, session, lane)
    {
      hide Cleaned, FormatRow, Digits;
      CleanupExpired(now);
      if session !in expiry { return Response(404, ""); }
      var key := SignalKey(session, lane);
      if key !in signals { return Response(404, ""); }
      var snapshot := signals[key];
      var body := FormatSignalEventLine(FetchRow(snapshot));
      var rest := FormatCandidates(snapshot.candidates);
      body := body + rest;
      FormatFront(FetchRow(snapshot), CandidateRows(snapshot.candidates));
      response := Response(200, body);
    }

    method FormatCandidates(lines: seq<string>) returns (text: string)
      ensures text == FormatRows(CandidateRows(lines))
    {
      hide FormatRow, CandidateRow;
      text := "";
      var i := 0;
      assert lines[0..] == lines;
      while i < |lines|
        invariant i <= |lines| && text + FormatRows(CandidateRows(lines[i..])) == FormatRows(CandidateRows(lines))
      {
        ghost var rest := CandidateRows(lines[i + 1..]);
        assert lines[i..][1..] == lines[i + 1..];
        var row := CandidateRow(lines[i]);
        CandidateRowShape(lines[i]);
        if row != [] {
          var line := FormatSignalEventLine(row[0]);
          FormatFront(row[0], rest);
          assert text + (line + FormatRows(rest)) == text + line + FormatRows(rest);
          text := text + line;
        } else {
          assert row + rest == rest;
        }
        i := i + 1;
      }
    }
  }

  lemma CandidateRowShape(line: string)
    ensures |CandidateRow(line)| <= 1
    ensures CandidateRow(line) != [] ==> CandidateRow(line) == [CandidateRow(line)[0]]
  {
  }

  lemma FormatFront(row: Row, rest: seq<Row>)
    ensures FormatRows([row] + rest) == FormatRow(row) + FormatRows(rest)
  {
    assert ([row] + rest)[1..] == rest;
  }

  lemma MoreKeys(gone: set<string>, id: string, lane: string)
    ensures (set x | x in gone + {id} :: SignalKey(x, lane)) == (set x | x in gone :: SignalKey(x, lane)) + {SignalKey(id, lane)}
  {
  }
}
