/** Newline framing of the runtime's control output, with byte accounting. */
module RuntimeControlQueue {
  import opened Basics

  const BYTE_CAPACITY: nat := 1024 * 1024
  const MESSAGE_CAPACITY: nat := 256
  const FRAME_LIMIT: nat := 64 * 1024

  type Byte = bv8
  type Bytes = seq<Byte>

  const NEWLINE: Byte := 10

  /** The first newline at or after `from`, or -1. */
  function IndexOfNewline(b: Bytes, from: nat): (at: int)
    requires from <= |b|
    ensures at == -1 || from <= at < |b|
    decreases |b| - from
  {
    if from == |b| then -1 else if b[from] == NEWLINE then from else IndexOfNewline(b, from + 1)
  }

  lemma IndexIsFirst(b: Bytes, from: nat)
    requires from <= |b|
    ensures var at := IndexOfNewline(b, from);
            && (at >= 0 ==> b[at] == NEWLINE && forall i :: from <= i < at ==> b[i] != NEWLINE)
            && (at == -1 ==> forall i :: from <= i < |b| ==> b[i] != NEWLINE)
    decreases |b| - from
  {
    if from < |b| && b[from] != NEWLINE { IndexIsFirst(b, from + 1); }
  }

  lemma FirstIsIndex(b: Bytes, from: nat, at: nat)
    requires from <= at < |b| && b[at] == NEWLINE && forall i :: from <= i < at ==> b[i] != NEWLINE
    ensures IndexOfNewline(b, from) == at
    decreases at - from
  {
    if from < at { FirstIsIndex(b, from + 1, at); }
  }

  // ---- What the stream means: its frames, and the unfinished tail ----

  function Frames(stream: Bytes): seq<Bytes>
    decreases |stream|
  {
    var newline := IndexOfNewline(stream, 0);
    if newline < 0 then [] else [stream[..newline + 1]] + Frames(stream[newline + 1..])
  }

  function Tail(stream: Bytes): Bytes
    decreases |stream|
  {
    var newline := IndexOfNewline(stream, 0);
    if newline < 0 then stream else Tail(stream[newline + 1..])
  }

  function Joined(frames: seq<Bytes>): Bytes {
    if frames == [] then [] else frames[0] + Joined(frames[1..])
  }

  // ---- The queue ----

  datatype Queue = Queue(pending: Bytes, frames: seq<Bytes>, bytes: int, failed: bool, peakBytes: int, peakMessages: nat)

  const NEW_QUEUE := Queue([], [], 0, false, 0, 0)

  function Failed(q: Queue): Queue { q.(pending := [], frames := [], bytes := 0, failed := true) }

  function CutOne(q: Queue, newline: nat): Queue
    requires newline < |q.pending|
  {
    q.(frames := q.frames + [q.pending[..newline + 1]], pending := q.pending[newline + 1..],
       peakMessages := Max(q.peakMessages, |q.frames| + 1))
  }

  /** Moves complete frames out of what is pending, until none is left or one does not fit. */
  function Cut(q: Queue): Queue
    decreases |q.pending|
  {
    var newline := IndexOfNewline(q.pending, 0);
    if newline < 0 then q
    else if newline > FRAME_LIMIT || |q.frames| == MESSAGE_CAPACITY then Failed(q)
    else Cut(CutOne(q, newline))
  }

  function Append(q: Queue, bytes: Bytes): Queue {
    if q.failed || |bytes| > BYTE_CAPACITY - q.bytes then Failed(q)
    else
      var total := q.bytes + |bytes|;
      var c := Cut(q.(pending := q.pending + bytes, bytes := total, peakBytes := Max(q.peakBytes, total)));
      if c.failed || |c.pending| > FRAME_LIMIT then Failed(c) else c
  }

  predicate IsSpace(b: Byte) { b == 32 || 9 <= b <= 13 }

  function TrimEnd(b: Bytes): Bytes {
    if b != [] && IsSpace(b[|b| - 1]) then TrimEnd(b[..|b| - 1]) else b
  }

  function Trimmed(b: Bytes): Bytes {
    if b != [] && IsSpace(b[0]) then Trimmed(b[1..]) else TrimEnd(b)
  }

  function Taken(q: Queue): Queue {
    if q.failed || q.frames == [] then q else q.(frames := q.frames[1..], bytes := q.bytes - |q.frames[0]|)
  }

  function TakeResult(q: Queue): Option<Bytes> {
    if q.failed || q.frames == [] then None else Some(Trimmed(q.frames[0]))
  }

  // ---- Frames of a stream ----

  predicate IsFrame(f: Bytes) { f != [] && f[|f| - 1] == NEWLINE && forall i :: 0 <= i < |f| - 1 ==> f[i] != NEWLINE }

  lemma FirstIsFrame(stream: Bytes)
    ensures var newline := IndexOfNewline(stream, 0);
            if newline < 0 then NEWLINE !in stream else IsFrame(stream[..newline + 1])
  {
    hide IndexOfNewline;
    IndexIsFirst(stream, 0);
  }

  lemma NoFrame(stream: Bytes)
    requires IndexOfNewline(stream, 0) < 0
    ensures Frames(stream) == [] && Tail(stream) == stream
  {
    hide IndexOfNewline;
  }

  lemma OneFrame(stream: Bytes)
    requires IndexOfNewline(stream, 0) >= 0
    ensures var newline := IndexOfNewline(stream, 0);
            && Frames(stream) == [stream[..newline + 1]] + Frames(stream[newline + 1..])
            && Tail(stream) == Tail(stream[newline + 1..])
  {
    hide IndexOfNewline, Frames, Tail;
    FramesOn(stream, IndexOfNewline(stream, 0));
    TailOn(stream, IndexOfNewline(stream, 0));
  }

  lemma FramesOn(stream: Bytes, newline: nat)
    requires newline == IndexOfNewline(stream, 0)
    ensures Frames(stream) == [stream[..newline + 1]] + Frames(stream[newline + 1..])
  {
    hide IndexOfNewline, Tail;
  }

  lemma TailOn(stream: Bytes, newline: nat)
    requires newline == IndexOfNewline(stream, 0)
    ensures Tail(stream) == Tail(stream[newline + 1..])
  {
    hide IndexOfNewline, Frames;
  }

  predicate AllFrames(frames: seq<Bytes>) { forall i :: 0 <= i < |frames| ==> IsFrame(frames[i]) }

  /** A stream is its frames, each with its only newline at the end, and then a tail without one. */
  lemma {:induction false} FramesAreFrames(stream: Bytes)
    ensures AllFrames(Frames(stream)) && NEWLINE !in Tail(stream)
    ensures Joined(Frames(stream)) + Tail(stream) == stream
    decreases |stream|
  {
    hide Joined, Frames, Tail, IndexOfNewline, IsFrame, AllFrames;
    FirstIsFrame(stream);
    var newline := IndexOfNewline(stream, 0);
    if newline < 0 {
      NoFrame(stream);
      JoinedNothing(Frames(stream));
      NoFrames(Frames(stream));
      assert [] + stream == stream;
    } else {
      OneFrame(stream);
      var first, rest := stream[..newline + 1], stream[newline + 1..];
      FramesAreFrames(rest);
      JoinedFront(first, Frames(rest));
      OneMoreFrame(first, Frames(rest));
      assert first + Joined(Frames(rest)) + Tail(rest) == first + (Joined(Frames(rest)) + Tail(rest));
      assert first + rest == stream;
    }
  }

  lemma NoFrames(frames: seq<Bytes>)
    requires frames == []
    ensures AllFrames(frames)
  {
  }

  lemma OneMoreFrame(first: Bytes, rest: seq<Bytes>)
    requires IsFrame(first) && AllFrames(rest)
    ensures AllFrames([first] + rest)
  {
    hide IsFrame;
  }

  lemma JoinedNothing(frames: seq<Bytes>)
    requires frames == []
    ensures Joined(frames) == []
  {
  }

  lemma JoinedFront(first: Bytes, rest: seq<Bytes>)
    ensures Joined([first] + rest) == first + Joined(rest)
  {
    assert ([first] + rest)[1..] == rest;
  }

  lemma FirstFrame(stream: Bytes, more: Bytes)
    ensures var newline := IndexOfNewline(stream, 0);
            && (newline >= 0 ==> IndexOfNewline(stream + more, 0) == newline)
            && (newline >= 0 ==> (stream + more)[..newline + 1] == stream[..newline + 1])
            && (newline >= 0 ==> (stream + more)[newline + 1..] == stream[newline + 1..] + more)
  {
    var newline := IndexOfNewline(stream, 0);
    if newline >= 0 {
      hide IndexOfNewline;
      var all := stream + more;
      IndexIsFirst(stream, 0);
      assert forall i :: 0 <= i < |stream| ==> all[i] == stream[i];
      FirstIsIndex(all, 0, newline);
    }
  }

  /** Frames do not depend on where a stream is cut: those of a whole are those of its beginning,
      followed by those the unfinished tail starts. */
  lemma {:induction false} FramesConcat(stream: Bytes, more: Bytes)
    ensures Frames(stream + more) == Frames(stream) + Frames(Tail(stream) + more)
    ensures Tail(stream + more) == Tail(Tail(stream) + more)
    decreases |stream|
  {
    hide IndexOfNewline, Frames, Tail;
    var newline := IndexOfNewline(stream, 0);
    if newline < 0 {
      NoFrame(stream);
      assert [] + Frames(stream + more) == Frames(stream + more);
    } else {
      OneFrame(stream);
      FirstFrame(stream, more);
      OneFrame(stream + more);
      FramesConcat(stream[newline + 1..], more);
      var first, rest := stream[..newline + 1], stream[newline + 1..];
      assert [first] + (Frames(rest) + Frames(Tail(rest) + more)) == [first] + Frames(rest) + Frames(Tail(rest) + more);
    }
  }

  // ---- What an append does ----

  /** No frame is longer than 64 KiB without its newline. */
  predicate FramesFit(frames: seq<Bytes>) { forall i :: 0 <= i < |frames| ==> |frames[i]| <= 65536 + 1 }

  lemma CutStops(q: Queue)
    requires var newline := IndexOfNewline(q.pending, 0);
             newline < 0 || newline > FRAME_LIMIT || |q.frames| == MESSAGE_CAPACITY
    ensures Cut(q) == if IndexOfNewline(q.pending, 0) < 0 then q else Failed(q)
  {
    hide IndexOfNewline, CutOne;
  }

  lemma CutGoesOn(q: Queue)
    requires 0 <= IndexOfNewline(q.pending, 0) <= FRAME_LIMIT && |q.frames| != MESSAGE_CAPACITY
    ensures Cut(q) == Cut(CutOne(q, IndexOfNewline(q.pending, 0)))
  {
    hide IndexOfNewline, CutOne;
  }

  /** Cutting succeeds exactly when every new frame and their number fit, and then queues them all. */
  lemma {:induction false} CutMeaning(q: Queue)
    requires !q.failed && |q.frames| <= MESSAGE_CAPACITY
    ensures var more, c := Frames(q.pending), Cut(q);
            && (c.failed <==> !FramesFit(more) || |q.frames| + |more| > MESSAGE_CAPACITY)
            && (!c.failed ==> c.frames == q.frames + more && c.pending == Tail(q.pending) && c.bytes == q.bytes
                              && c.peakBytes == q.peakBytes
                              && c.peakMessages == if more == [] then q.peakMessages else Max(q.peakMessages, |c.frames|))
    decreases |q.pending|
  {
    hide IndexOfNewline, Frames, Tail, Cut, FramesFit;
    var newline := IndexOfNewline(q.pending, 0);
    if newline < 0 {
      CutStops(q);
      NoFrame(q.pending);
      assert q.frames + [] == q.frames;
      NothingFits(Frames(q.pending));
    } else {
      OneFrame(q.pending);
      var first, rest := q.pending[..newline + 1], q.pending[newline + 1..];
      FitsFront(first, Frames(rest));
      if newline <= FRAME_LIMIT && |q.frames| != MESSAGE_CAPACITY {
        CutGoesOn(q);
        CutMeaning(CutOne(q, newline));
        assert q.frames + ([first] + Frames(rest)) == q.frames + [first] + Frames(rest);
      } else {
        CutStops(q);
      }
    }
  }

  lemma NothingFits(frames: seq<Bytes>)
    requires frames == []
    ensures FramesFit(frames)
  {
  }

  lemma FitsFront(first: Bytes, rest: seq<Bytes>)
    ensures FramesFit([first] + rest) <==> |first| <= FRAME_LIMIT + 1 && FramesFit(rest)
  {
    if FramesFit([first] + rest) {
      assert ([first] + rest)[0] == first;
      forall i | 0 <= i < |rest| ensures |rest[i]| <= FRAME_LIMIT + 1 { assert ([first] + rest)[i + 1] == rest[i]; }
    }
  }

  predicate Consistent(q: Queue) {
    && |q.frames| <= MESSAGE_CAPACITY && |q.pending| <= FRAME_LIMIT
    && q.bytes == |Joined(q.frames)| + |q.pending| <= BYTE_CAPACITY
    && (q.failed ==> q.frames == [] && q.pending == [])
  }

  lemma JoinedConcat(a: seq<Bytes>, b: seq<Bytes>)
    ensures Joined(a + b) == Joined(a) + Joined(b)
  {
    if a == [] {
      assert a + b == b && [] + Joined(b) == Joined(b);
    } else {
      assert (a + b)[1..] == a[1..] + b;
      JoinedConcat(a[1..], b);
      assert a[0] + (Joined(a[1..]) + Joined(b)) == a[0] + Joined(a[1..]) + Joined(b);
    }
  }

  /** An append succeeds if and only if the queue has not failed, its bytes fit, every frame it
      completes fits and is not one too many, and the tail it leaves fits; then it queues exactly the
      frames completed and keeps the tail. */
  lemma AppendMeaning(q: Queue, bytes: Bytes)
    requires Consistent(q)
    ensures var all := q.pending + bytes;
            var r := Append(q, bytes);
            && (!r.failed <==>
                  && !q.failed && q.bytes + |bytes| <= 1048576 && FramesFit(Frames(all))
                  && |q.frames| + |Frames(all)| <= 256 && |Tail(all)| <= 65536)
            && (!r.failed ==> r.frames == q.frames + Frames(all) && r.pending == Tail(all) && r.bytes == q.bytes + |bytes|
                              && r.peakBytes == Max(q.peakBytes, r.bytes)
                              && r.peakMessages == if Frames(all) == [] then q.peakMessages else Max(q.peakMessages, |r.frames|))
            && Consistent(r)
  {
    hide FramesFit, Joined, Frames, Tail, Cut;
    JoinedNothing([]);
    var all := q.pending + bytes;
    if !q.failed && |bytes| <= BYTE_CAPACITY - q.bytes {
      CutMeaning(q.(pending := all, bytes := q.bytes + |bytes|, peakBytes := Max(q.peakBytes, q.bytes + |bytes|)));
      FramesAreFrames(all);
      JoinedConcat(q.frames, Frames(all));
    }
  }

  lemma TakeKeepsConsistent(q: Queue)
    requires Consistent(q)
    ensures Consistent(Taken(q))
  {
    if q.frames != [] { assert q.frames == [q.frames[0]] + q.frames[1..]; }
  }

  // ---- What a take gives ----

  predicate AllSpace(b: Bytes) { forall i :: 0 <= i < |b| ==> b[i] == 32 || 9 <= b[i] <= 13 }

  /** A take gives the oldest frame without the white space around it, and nothing else: what is left
      begins and ends with something else, if there is anything left. */
  lemma {:induction false} TakenIsTrimmed(q: Queue) returns (before: Bytes, after: Bytes)
    requires !q.failed && q.frames != []
    ensures TakeResult(q).Some? && q.frames[0] == before + TakeResult(q).value + after && AllSpace(before) && AllSpace(after)
    ensures var taken := TakeResult(q).value;
            taken != [] ==> !AllSpace(taken[..1]) && !AllSpace(taken[|taken| - 1..])
  {
    hide Trimmed, AllSpace;
    before, after := TrimmedParts(q.frames[0]);
  }

  lemma {:induction false} TrimmedParts(b: Bytes) returns (before: Bytes, after: Bytes)
    ensures b == before + Trimmed(b) + after && AllSpace(before) && AllSpace(after)
    ensures Trimmed(b) != [] ==> !AllSpace(Trimmed(b)[..1]) && !AllSpace(Trimmed(b)[|Trimmed(b)| - 1..])
    decreases |b|
  {
    if b != [] && IsSpace(b[0]) {
      before, after := TrimmedParts(b[1..]);
      assert b == [b[0]] + b[1..];
      assert [b[0]] + (before + Trimmed(b) + after) == [b[0]] + before + Trimmed(b) + after;
      before := [b[0]] + before;
    } else {
      before := [];
      after := TrimmedEnd(b);
      assert b == [] + TrimEnd(b) + after;
      if TrimEnd(b) != [] { assert TrimEnd(b)[0] == b[0]; assert TrimEnd(b)[..1][0] == b[0]; }
    }
  }

  lemma {:induction false} TrimmedEnd(b: Bytes) returns (after: Bytes)
    ensures b == TrimEnd(b) + after && AllSpace(after)
    ensures TrimEnd(b) != [] ==> !AllSpace(TrimEnd(b)[|TrimEnd(b)| - 1..])
    decreases |b|
  {
    if b != [] && IsSpace(b[|b| - 1]) {
      after := TrimmedEnd(b[..|b| - 1]);
      assert b == b[..|b| - 1] + [b[|b| - 1]];
      assert TrimEnd(b) + after + [b[|b| - 1]] == TrimEnd(b) + (after + [b[|b| - 1]]);
      after := after + [b[|b| - 1]];
    } else {
      after := [];
      if b != [] { assert b[|b| - 1..][0] == b[|b| - 1]; }
    }
  }

  // ---- Runs ----

  datatype Action = Feed(bytes: Bytes) | Take

  /** The queue, every byte fed so far, and the raw frames taken. */
  datatype World = World(q: Queue, fed: Bytes, taken: seq<Bytes>)

  function Next(w: World, a: Action): World {
    match a
    case Feed(bytes) => World(Append(w.q, bytes), w.fed + bytes, w.taken)
    case Take => World(Taken(w.q), w.fed, if w.q.failed || w.q.frames == [] then w.taken else w.taken + [w.q.frames[0]])
  }

  function Run(w: World, actions: seq<Action>): World
    decreases |actions|
  {
    if actions == [] then w else Run(Next(w, actions[0]), actions[1..])
  }

  predicate Framed(w: World) {
    && Consistent(w.q)
    && (!w.q.failed ==> w.taken + w.q.frames == Frames(w.fed) && w.q.pending == Tail(w.fed))
  }

  lemma NextKeepsFramed(w: World, a: Action)
    requires Framed(w)
    ensures Framed(Next(w, a)) && (w.q.failed ==> Next(w, a).q.failed && Next(w, a).taken == w.taken)
  {
    hide Frames, Tail, FramesFit, Append, Consistent;
    match a {
      case Feed(bytes) =>
        AppendMeaning(w.q, bytes);
        FramesConcat(w.fed, bytes);
        var all := w.q.pending + bytes;
        assert w.taken + (w.q.frames + Frames(all)) == w.taken + w.q.frames + Frames(all);
      case Take =>
        TakeKeepsConsistent(w.q);
        if !w.q.failed && w.q.frames != [] {
          assert w.taken + [w.q.frames[0]] + w.q.frames[1..] == w.taken + w.q.frames;
        }
    }
  }

  lemma {:induction false} RunKeepsFramed(w: World, actions: seq<Action>)
    requires Framed(w)
    ensures Framed(Run(w, actions))
    ensures w.q.failed ==> Run(w, actions).q.failed && Run(w, actions).taken == w.taken
    decreases |actions|
  {
    hide Framed, Next;
    if actions != [] {
      NextKeepsFramed(w, actions[0]);
      RunKeepsFramed(Next(w, actions[0]), actions[1..]);
    }
  }

  const NEW_WORLD := World(NEW_QUEUE, [], [])

  lemma NewIsFramed(w: World)
    requires w == NEW_WORLD
    ensures Framed(w)
  {
    assert Frames(w.fed) == [] && [] + w.q.frames == [];
  }

  /** Framing does not depend on chunking: however a stream is cut into appends and whenever frames
      are taken, as long as no append has failed the frames taken and queued are those of the whole
      stream, the rest is its tail, and together they are the stream. */
  lemma FramingIsIndependentOfChunks(actions: seq<Action>)
    ensures var w := Run(NEW_WORLD, actions);
            && 0 <= w.q.bytes <= BYTE_CAPACITY && w.q.bytes == |Joined(w.q.frames)| + |w.q.pending|
            && (!w.q.failed ==>
                  && w.taken + w.q.frames == Frames(w.fed)
                  && Joined(w.taken + w.q.frames) + w.q.pending == w.fed
                  && AllFrames(Frames(w.fed)))
  {
    hide Run, Frames, Tail, Joined, AllFrames;
    var start := NEW_WORLD;
    NewIsFramed(start);
    RunKeepsFramed(start, actions);
    FramesAreFrames(Run(start, actions).fed);
  }

  /** The most bytes, and the most frames, that have been queued after any step so far. */
  function MostQueued(w: World, actions: seq<Action>, bytes: int, messages: nat): (int, nat)
    decreases |actions|
  {
    if actions == [] then (bytes, messages)
    else
      var n := Next(w, actions[0]);
      MostQueued(n, actions[1..], Max(bytes, n.q.bytes), Max(messages, |n.q.frames|))
  }

  lemma {:induction false} RunKeepsPeaks(w: World, actions: seq<Action>)
    requires Consistent(w.q) && w.q.bytes <= w.q.peakBytes && |w.q.frames| <= w.q.peakMessages && !Run(w, actions).q.failed
    ensures var q := Run(w, actions).q; (q.peakBytes, q.peakMessages) == MostQueued(w, actions, w.q.peakBytes, w.q.peakMessages)
    decreases |actions|
  {
    hide Append, Frames, Tail, FramesFit, Framed, Consistent;
    if actions != [] {
      if Next(w, actions[0]).q.failed {
        FailedStays(Next(w, actions[0]), actions[1..]);
      } else {
        match actions[0] {
          case Feed(bytes) => AppendMeaning(w.q, bytes);
          case Take => TakeKeepsConsistent(w.q);
        }
        RunKeepsPeaks(Next(w, actions[0]), actions[1..]);
      }
    }
  }

  lemma {:induction false} FailedStays(w: World, actions: seq<Action>)
    requires w.q.failed
    ensures Run(w, actions).q.failed
    decreases |actions|
  {
    if actions != [] { FailedStays(Next(w, actions[0]), actions[1..]); }
  }

  /** As long as nothing has failed the peaks are the most that was ever queued. */
  lemma {:induction false} PeaksAreTrue(actions: seq<Action>)
    requires !Run(NEW_WORLD, actions).q.failed
    ensures var q := Run(NEW_WORLD, actions).q; (q.peakBytes, q.peakMessages) == MostQueued(NEW_WORLD, actions, 0, 0)
  {
    hide Run, MostQueued, Frames;
    var start := NEW_WORLD;
    NewIsFramed(start);
    RunKeepsPeaks(start, actions);
  }

  /** Two ways of cutting the same stream, taking frames whenever, agree on every frame and on the rest. */
  lemma ChunksDoNotMatter(actions: seq<Action>, others: seq<Action>)
    requires Run(NEW_WORLD, actions).fed == Run(NEW_WORLD, others).fed
    requires !Run(NEW_WORLD, actions).q.failed && !Run(NEW_WORLD, others).q.failed
    ensures var a, b := Run(NEW_WORLD, actions), Run(NEW_WORLD, others);
            a.taken + a.q.frames == b.taken + b.q.frames && a.q.pending == b.q.pending
  {
    hide Run, Frames, Tail, Consistent;
    var start := NEW_WORLD;
    NewIsFramed(start);
    RunKeepsFramed(start, actions);
    RunKeepsFramed(start, others);
  }

  /** Failure is absorbing: nothing is accepted or taken after it. */
  lemma FailureStays(actions: seq<Action>, more: seq<Action>)
    requires Run(NEW_WORLD, actions).q.failed
    ensures var w := Run(NEW_WORLD, actions); var r := Run(w, more);
            r.q.failed && r.taken == w.taken && r.q.frames == [] && r.q.pending == [] && r.q.bytes == 0
  {
    hide Run, Frames, Tail;
    var start := NEW_WORLD;
    NewIsFramed(start);
    RunKeepsFramed(start, actions);
    RunKeepsFramed(Run(start, actions), more);
  }

  // ---- The queue as an object ----

  class ControlQueue {
    var pending: Bytes
    var frames: seq<Bytes>
    var bytes: int
    var peakBytes: int
    var peakMessages: nat
    var failed: bool

    function Value(): Queue
      reads this
    {
      Queue(pending, frames, bytes, failed, peakBytes, peakMessages)
    }

    constructor ()
      ensures Value() == NEW_QUEUE
    {
      pending := [];
      frames := [];
      bytes := 0;
      peakBytes := 0;
      peakMessages := 0;
      failed := false;
    }

    method Fail()
      modifies this
      ensures Value() == Failed(old(Value()))
    {
      failed := true;
      frames := [];
      pending := [];
      bytes := 0;
    }

    method Accept(chunk: Bytes) returns (ok: bool)
      modifies this
      ensures Value() == Append(old(Value()), chunk) && ok == !failed
    {
      hide IndexOfNewline, Cut;
      if failed || |chunk| > BYTE_CAPACITY - bytes { Fail(); return false; }
      pending := pending + chunk;
      bytes := bytes + |chunk|;
      peakBytes := Max(peakBytes, bytes);
      ghost var whole := Value();
      while true
        invariant Cut(Value()) == Cut(whole) && !failed && whole.peakBytes == peakBytes
        decreases |pending|
      {
        var newline := IndexOfNewline(pending, 0);
        if newline < 0 { CutStops(Value()); break; }
        if newline > FRAME_LIMIT || |frames| == MESSAGE_CAPACITY { CutStops(Value()); Fail(); return false; }
        CutGoesOn(Value());
        frames := frames + [pending[..newline + 1]];
        pending := pending[newline + 1..];
        peakMessages := Max(peakMessages, |frames|);
      }
      if |pending| > FRAME_LIMIT { Fail(); return false; }
      ok := true;
    }

    method TakeFrame() returns (frame: Option<Bytes>)
      modifies this
      ensures Value() == Taken(old(Value())) && frame == TakeResult(old(Value()))
    {
      if failed || frames == [] { return None; }
      var front := frames[0];
      frames := frames[1..];
      bytes := bytes - |front|;
      frame := Some(Trimmed(front));
    }
  }
}
