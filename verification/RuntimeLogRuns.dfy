/** Whole runs of the log buffer and its view: what is shown, and catching up. */
module RuntimeLogRuns {
  import opened Basics
  import opened RuntimeLogModel
  import BufferProofs = RuntimeLogBufferProofs
  import opened ViewProofs = RuntimeLogViewProofs

  datatype World = World(all: seq<Line>, buffer: Buffer, view: View)

  datatype Action = AppendText(text: Line) | ClearAll | FlushView(visible: bool)

  /** The text splits into lines that a document shows as one block each. */
  ghost predicate Displayable(a: Action) {
    a.AppendText? ==> forall line :: line in LinesFrom(a.text, 0) ==> Plain(line)
  }

  /** A hidden view does no work. That a visible one is always flushable is part of `RunShows`. */
  function Next(w: World, a: Action): World {
    match a
    case AppendText(text) => World(w.all + LinesFrom(text, 0), Append(w.buffer, text), w.view)
    case ClearAll => World(w.all, Clear(w.buffer), Reset(Clear(w.buffer)))
    case FlushView(visible) =>
      if visible && Flushable(w.buffer, w.view) then w.(view := Flush(w.buffer, w.view)) else w
  }

  function Run(w: World, actions: seq<Action>): World
    decreases |actions|
  {
    if actions == [] then w else Run(Next(w, actions[0]), actions[1..])
  }

  const NEW_WORLD := World([], EMPTY_BUFFER, NEW_VIEW)

  ghost predicate WorldInv(w: World) {
    ViewInv(w.all, w.buffer, w.view) && BufferInv(w.buffer)
  }

  lemma NextKeepsInv(w: World, a: Action)
    requires WorldInv(w) && Displayable(a)
    ensures WorldInv(Next(w, a))
  {
    match a
    case AppendText(text) =>
      AppendKeepsInv(w.all, w.buffer, w.view, text);
    case ClearAll =>
      assert w.all[|w.all|..] == [];
    case FlushView(_) =>
      FlushKeepsInv(w.all, w.buffer, w.view);
  }

  lemma {:induction false} RunKeepsInv(w: World, actions: seq<Action>)
    requires WorldInv(w) && forall i :: 0 <= i < |actions| ==> Displayable(actions[i])
    ensures WorldInv(Run(w, actions))
    decreases |actions|
  {
    hide WorldInv, Next, Displayable;
    if actions != [] {
      NextKeepsInv(w, actions[0]);
      RunKeepsInv(Next(w, actions[0]), actions[1..]);
    }
  }

  lemma {:induction false} NewWorldInv()
    ensures WorldInv(NEW_WORLD)
  {
  }

  /** Whatever mix of appends, evictions, clears and flushes came before, the view is flushable and
      shows a contiguous range of the lines appended, plus a prefix of the next. */
  lemma {:induction false} RunShows(actions: seq<Action>)
    requires forall i :: 0 <= i < |actions| ==> Displayable(actions[i])
    ensures var w := Run(NEW_WORLD, actions);
            WorldInv(w) && Flushable(w.buffer, w.view)
  {
    hide WorldInv, Run;
    NewWorldInv();
    RunKeepsInv(NEW_WORLD, actions);
    var w := Run(NEW_WORLD, actions);
    WorldIsFlushable(w);
  }

  lemma {:induction false} WorldIsFlushable(w: World)
    requires WorldInv(w)
    ensures Flushable(w.buffer, w.view)
  {
    InvIsFlushable(w.all, w.buffer, w.view);
  }

  // ---- Catching up ----

  function Flushes(w: World, n: nat): World
    decreases n
  {
    if n == 0 then w else Flushes(Next(w, FlushView(true)), n - 1)
  }

  lemma {:induction false} JoinNothing(lines: seq<Line>)
    requires |lines| <= 1 && forall i :: 0 <= i < |lines| ==> |lines[i]| == 0
    ensures Join(lines) == []
  {
  }

  /** Caught up, the document reads as the buffer's text. */
  lemma {:induction false} CaughtUpShowsTheText(w: World)
    requires WorldInv(w) && w.view.next == |w.all|
    ensures Join(w.view.doc) == Join(w.buffer.lines)
  {
    hide Join;
    if w.view.hasText {
      assert w.view.doc == w.buffer.lines;
    } else {
      JoinNothing(w.view.doc);
      JoinNothing(w.buffer.lines);
    }
  }

  /** With nothing more appended, every flush leaves fewer units to show until none are left, and then
      the document equals the buffer's text and stays so. */
  lemma {:induction false} FlushesCatchUp(w: World, n: nat)
    requires WorldInv(w) && n >= Remaining(w.all, w.view.next, w.view.offset)
    ensures var w' := Flushes(w, n);
            && w'.buffer == w.buffer && w'.view.next == |w.all|
            && Join(w'.view.doc) == Join(w.buffer.lines)
            && Next(w', FlushView(true)) == w'
    decreases n
  {
    hide Join, Flush, Shown, Plain;
    RemainingIsPositive(w.all, w.view.next, w.view.offset);
    FlushKeepsInv(w.all, w.buffer, w.view);
    if n == 0 {
      CaughtUpShowsTheText(w);
    } else {
      var w1 := Next(w, FlushView(true));
      RemainingIsPositive(w.all, w1.view.next, w1.view.offset);
      FlushesCatchUp(w1, n - 1);
    }
  }

  // ---- A run after which dropped lines are still shown ----

  function Newlines(n: nat): Line { seq(n, _ => NEWLINE) }

  predicate AllEmpty(lines: seq<Line>) { forall i :: 0 <= i < |lines| ==> |lines[i]| == 0 }

  lemma {:induction false} NewlinesSplit(n: nat, begin: nat)
    requires begin <= n
    ensures |LinesFrom(Newlines(n), begin)| == n - begin + 1 && AllEmpty(LinesFrom(Newlines(n), begin))
    decreases n - begin
  {
    var newline := IndexOfNewline(Newlines(n), begin);
    if begin < n {
      assert newline == begin;
      NewlinesSplit(n, begin + 1);
    }
  }

  lemma {:induction false} EmptyLinesCost(lines: seq<Line>)
    requires AllEmpty(lines)
    ensures BufferProofs.Bytes(lines) == 2 * |lines|
    decreases |lines|
  {
    if lines != [] { EmptyLinesCost(lines[1..]); }
  }

  /** Of empty lines only, the buffer keeps the last 4096. */
  lemma EmptyLinesKept(all: seq<Line>, kept: seq<Line>)
    requires AllEmpty(all) && BufferProofs.LongestFit(all, kept)
    ensures |kept| == Min(|all|, MAX_LINES) && AllEmpty(kept)
  {
    hide BufferProofs.Bytes;
    EmptyLinesCost(all[|all| - Min(|all|, MAX_LINES)..]);
  }

  /** A batch of empty lines ends after sixty-four of them. */
  lemma {:induction false} EmptyLinesCollected(b: Buffer, g: Batch)
    requires AllEmpty(b.lines) && b.first <= g.next && g.offset == 0 && |g.text| <= g.completed <= BATCH_LINES
    requires g.next + BATCH_LINES - g.completed <= b.End()
    ensures var r := CollectBatch(b, g); r.next == g.next + BATCH_LINES - g.completed && r.offset == 0
    decreases BATCH_LINES - g.completed
  {
    if g.completed < BATCH_LINES {
      assert |b.lines[g.next - b.first]| == 0;
      EmptyLinesCollected(b, AddToBatch(b, g));
    }
  }

  /** Empty lines only, all appended since the start; the view has shown the first `shown` of them. */
  ghost predicate Empties(w: World, lines: nat, shown: nat) {
    && WorldInv(w) && AllEmpty(w.all) && |w.all| == lines && BufferProofs.LongestFit(w.all, w.buffer.lines)
    && w.view.next == shown && w.view.offset == 0 && w.view.displayedFirst == 0
  }

  lemma EmptiesAppended(w: World, lines: nat, shown: nat, n: nat)
    requires Empties(w, lines, shown)
    ensures Displayable(AppendText(Newlines(n))) && Empties(Next(w, AppendText(Newlines(n))), lines + n + 1, shown)
  {
    hide WorldInv, BufferProofs.LongestFit, Append, LinesFrom;
    NewlinesSplit(n, 0);
    AppendHelps(w, Newlines(n));
    NextKeepsInv(w, AppendText(Newlines(n)));
  }

  lemma AppendHelps(w: World, text: Line)
    requires WorldInv(w) && BufferProofs.LongestFit(w.all, w.buffer.lines)
    ensures BufferProofs.LongestFit(w.all + LinesFrom(text, 0), Append(w.buffer, text).lines)
  {
    hide BufferProofs.LongestFit, Append, LinesFrom;
    BufferProofs.AppendKeepsLongestFit(w.all, w.buffer, text);
  }

  /** The first flush, while the buffer still holds everything. */
  lemma EmptiesFlushed(w: World)
    requires Empties(w, MAX_LINES, 0)
    ensures Empties(Next(w, FlushView(true)), MAX_LINES, BATCH_LINES)
  {
    hide BufferProofs.LongestFit, CollectBatch, InsertBatch, Remaining, Shown, Capped;
    EmptyLinesKept(w.all, w.buffer.lines);
    NextKeepsInv(w, FlushView(true));
    FlushShows(w.all, w.buffer, w.view);
    EmptyLinesCollected(w.buffer, Batch([], 0, 0, false, 0));
  }

  /** The next flush after one more line, which has pushed the first one out. */
  lemma EmptiesStale(w: World)
    requires Empties(w, MAX_LINES + 1, BATCH_LINES)
    ensures var w' := Next(w, FlushView(true)); w'.view.displayedFirst < w'.buffer.first
  {
    hide BufferProofs.LongestFit, CollectBatch, InsertBatch, Remaining, Shown, Capped;
    EmptyLinesKept(w.all, w.buffer.lines);
    FlushShowsExpiredIff(w.all, w.buffer, w.view);
    EmptyLinesCollected(w.buffer, Batch([], w.view.next, 0, w.view.hasText, 0));
  }

  lemma RunTwo(w: World, a: Action, b: Action, rest: seq<Action>)
    ensures Run(w, [a, b] + rest) == Run(Next(Next(w, a), b), rest)
  {
    assert ([a, b] + rest)[1..] == [b] + rest;
    assert ([b] + rest)[1..] == rest;
  }

  /** From a new view: 4096 empty lines, a flush, one more line and a flush leave a line shown that the
      buffer has dropped. */
  lemma {:induction false} DroppedLineStaysShown() returns (actions: seq<Action>)
    ensures forall i :: 0 <= i < |actions| ==> Displayable(actions[i])
    ensures actions == [AppendText(Newlines(4095)), FlushView(true)] + [AppendText(Newlines(0)), FlushView(true)]
    ensures var w := Run(NEW_WORLD, actions); w.view.displayedFirst < w.buffer.first
  {
    hide Empties, Next, Displayable, Newlines;
    var many, one, flush := AppendText(Newlines(4095)), AppendText(Newlines(0)), FlushView(true);
    NewWorldIsEmpty();
    EmptiesAppended(NEW_WORLD, 0, 0, 4095);
    var w1 := Next(NEW_WORLD, many);
    EmptiesFlushed(w1);
    var w2 := Next(w1, flush);
    EmptiesAppended(w2, MAX_LINES, BATCH_LINES, 0);
    EmptiesStale(Next(w2, one));
    FlushIsDisplayable();
    actions := [many, flush] + [one, flush];
    RunTwo(NEW_WORLD, many, flush, [one, flush]);
    RunTwo(w2, one, flush, []);
    assert [one, flush] + [] == [one, flush];
  }

  lemma NewWorldIsEmpty()
    ensures Empties(NEW_WORLD, 0, 0)
  {
    NewWorldInv();
  }

  lemma FlushIsDisplayable()
    ensures Displayable(FlushView(true))
  {
  }
}
