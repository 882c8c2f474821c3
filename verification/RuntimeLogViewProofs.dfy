/** What the incremental view shows: at every moment a contiguous range of the lines ever appended and
    a prefix of the next one, and after enough flushes exactly the buffer's text. */
module RuntimeLogViewProofs {
  import opened Basics
  import opened RuntimeLogModel
  import BufferProofs = RuntimeLogBufferProofs

  // ---- The document under insertion ----

  lemma InsertTextConcat(doc: Document, a: Line, b: Line)
    requires doc != []
    ensures InsertText(doc, a + b) == InsertText(InsertText(doc, a), b)
    decreases |a|
  {
    if a == [] {
      assert a + b == b;
    } else {
      assert (a + b)[1..] == a[1..] + b;
      InsertTextConcat(InsertUnit(doc, a[0]), a[1..], b);
    }
  }

  /** Plain text lengthens the last block. */
  lemma InsertPlain(doc: Document, text: Line)
    requires doc != [] && Plain(text)
    ensures InsertText(doc, text) == doc[..|doc| - 1] + [doc[|doc| - 1] + text]
    decreases |text|
  {
    if text == [] {
      assert doc[|doc| - 1] + text == doc[|doc| - 1];
    } else {
      var doc' := InsertUnit(doc, text[0]);
      InsertPlain(doc', text[1..]);
      assert doc'[..|doc'| - 1] == doc[..|doc| - 1];
      assert doc[|doc| - 1] + [text[0]] + text[1..] == doc[|doc| - 1] + text;
    }
  }

  lemma InsertNewline(doc: Document)
    requires doc != []
    ensures InsertText(doc, [NEWLINE]) == doc + [[]]
  {
    assert [NEWLINE][1..] == [];
    assert InsertText(InsertUnit(doc, NEWLINE), []) == InsertUnit(doc, NEWLINE);
  }

  /** However the view inserts a batch, the document becomes what typing the batch gives. */
  lemma InsertBatchTypes(v: View, text: Line)
    requires v.doc != []
    requires !v.hasText ==> IsEmptyDocument(v.doc)
    requires v.hasText && v.offset == 0 ==> text != [] && text[0] == NEWLINE
    ensures InsertBatch(v, text) == InsertText(v.doc, text)
  {
    if v.hasText && v.offset == 0 && !IsEmptyDocument(v.doc) {
      assert text == [NEWLINE] + text[1..];
      InsertTextConcat(v.doc, [NEWLINE], text[1..]);
      InsertNewline(v.doc);
    }
  }

  // ---- What is shown ----

  /** Lines `from` up to `next` of all lines ever appended, then the first `offset` units of the next. */
  function Shown(all: seq<Line>, from: nat, next: nat, offset: nat): seq<Line>
    requires from <= next <= |all| && (offset > 0 ==> next < |all| && offset <= |all[next]|)
  {
    all[from..next] + (if offset > 0 then [all[next][..offset]] else [])
  }

  predicate PositionValid(all: seq<Line>, next: nat, offset: nat) {
    next <= |all| && (offset > 0 ==> next < |all| && offset < |all[next]|)
  }

  /** The view shows a contiguous range of everything appended; it may begin before the buffer does,
      never after, and begins with it once it has caught up. */
  ghost predicate ViewInv(all: seq<Line>, b: Buffer, v: View) {
    && b.End() == |all| && b.lines == all[b.first..] && |b.lines| <= MAX_LINES
    && (forall i :: 0 <= i < |all| ==> Plain(all[i]))
    && PositionValid(all, v.next, v.offset)
    && v.displayedFirst <= b.first
    && (v.next == |all| ==> v.displayedFirst == b.first)
    && (b.lines == [] ==> v.next == |all|)
    && (if v.hasText then
          && 0 <= v.displayedFirst && v.displayedFirst < v.next + (if v.offset > 0 then 1 else 0)
          && v.doc == Shown(all, v.displayedFirst, v.next, v.offset)
          && |v.doc| <= MAX_LINES
        else v.doc == [[]] && v.offset == 0 && v.next == v.displayedFirst)
  }

  lemma InvIsFlushable(all: seq<Line>, b: Buffer, v: View)
    requires ViewInv(all, b, v)
    ensures Flushable(b, v)
  {
  }

  // ---- Collecting a batch ----

  /** Units not shown yet, counting one a line for its end. */
  function Remaining(all: seq<Line>, next: nat, offset: nat): int
    requires next <= |all|
    decreases |all| - next
  {
    if next == |all| then 0 else |all[next]| + 1 - offset + Remaining(all, next + 1, 0)
  }

  lemma RemainingIsPositive(all: seq<Line>, next: nat, offset: nat)
    requires PositionValid(all, next, offset)
    ensures Remaining(all, next, offset) >= 0
    ensures Remaining(all, next, offset) == 0 <==> next == |all|
    decreases |all| - next
  {
    if next < |all| { RemainingIsPositive(all, next + 1, 0); }
  }

  /** Typing what the batch holds so far onto `base` shows everything up to its position. */
  ghost predicate BatchShows(all: seq<Line>, from: nat, base: Document, g: Batch) {
    && base != [] && from <= g.next && PositionValid(all, g.next, g.offset)
    && (g.hasText ==> from < g.next + (if g.offset > 0 then 1 else 0))
    && (!g.hasText ==> g.next == from && g.offset == 0)
    && InsertText(base, g.text) == if g.hasText then Shown(all, from, g.next, g.offset) else [[]]
  }

  /** A step takes a unit or ends an empty line, and stays inside the line. */
  lemma TakeBounds(b: Buffer, g: Batch)
    requires b.first <= g.next < b.End() && g.offset <= |b.lines[g.next - b.first]| && BatchGoesOn(b, g)
    requires g.offset > 0 ==> g.offset < |b.lines[g.next - b.first]|
    ensures var line := b.lines[g.next - b.first];
            var take := UnitsTaken(line, g.offset, Available(g));
            g.offset + take <= |line| && (take > 0 || |line| == 0)
  {
  }

  lemma RemainingStep(all: seq<Line>, next: nat, offset: nat, take: nat)
    requires PositionValid(all, next, offset) && next < |all|
    requires offset + take <= |all[next]| && (take > 0 || |all[next]| == 0)
    ensures if offset + take == |all[next]| then Remaining(all, next + 1, 0) < Remaining(all, next, offset)
            else Remaining(all, next, offset + take) < Remaining(all, next, offset)
  {
  }

  /** Typing an optional newline and a plain piece. */
  lemma TypeStep(base: Document, text: Line, newline: bool, piece: Line)
    requires base != [] && Plain(piece)
    ensures var before := InsertText(base, text);
            var separated := if newline then before + [[]] else before;
            InsertText(base, text + (if newline then [NEWLINE] else []) + piece)
            == separated[..|separated| - 1] + [separated[|separated| - 1] + piece]
  {
    var separator: Line := if newline then [NEWLINE] else [];
    var before := InsertText(base, text);
    InsertTextConcat(base, text + separator, piece);
    InsertTextConcat(base, text, separator);
    if newline { InsertNewline(before); } else { InsertNothing(before); }
    InsertPlain(InsertText(before, separator), piece);
  }

  lemma AddToBatchShows(all: seq<Line>, from: nat, base: Document, b: Buffer, g: Batch)
    requires b.End() == |all| && b.lines == all[b.first..] && b.first <= g.next
    requires forall i :: 0 <= i < |all| ==> Plain(all[i])
    requires BatchShows(all, from, base, g) && BatchGoesOn(b, g)
    ensures var r := AddToBatch(b, g);
            BatchShows(all, from, base, r) && Remaining(all, r.next, r.offset) < Remaining(all, g.next, g.offset)
  {
    hide InsertText, Remaining, UnitsTaken, Available, Shown, BatchGoesOn;
    GoesOnInside(b, g);
    var line := b.lines[g.next - b.first];
    assert line == all[g.next];
    var take := UnitsTaken(line, g.offset, Available(g));
    TakeBounds(b, g);
    RemainingStep(all, g.next, g.offset, take);
    var newline := g.offset == 0 && g.hasText;
    var before := InsertText(base, g.text);
    var separated := if newline then before + [[]] else before;
    TypeStep(base, g.text, newline, line[g.offset..g.offset + take]);
    PieceCompletes(all, from, g.next, g.offset, take, g.hasText, separated);
  }

  lemma GoesOnInside(b: Buffer, g: Batch)
    requires b.first <= g.next <= b.End() && (g.next < b.End() ==> g.offset <= |b.lines[g.next - b.first]|)
    requires BatchGoesOn(b, g)
    ensures g.next < b.End() && Available(g) > 0
  {
  }

  lemma InsertNothing(doc: Document)
    requires doc != []
    ensures InsertText(doc, []) == doc
  {
  }

  lemma SliceSnoc(all: seq<Line>, from: nat, next: nat)
    requires from <= next < |all|
    ensures all[from..next + 1] == all[from..next] + [all[next]]
  {
  }

  /** The inserted piece brings the shown range up to its end. */
  lemma PieceCompletes(all: seq<Line>, from: nat, next: nat, offset: nat, take: nat, hasText: bool, doc: Document)
    requires PositionValid(all, next, offset) && from <= next < |all| && offset + take <= |all[next]|
    requires offset + take > 0 || |all[next]| == 0
    requires hasText ==> from < next + (if offset > 0 then 1 else 0)
    requires !hasText ==> next == from && offset == 0
    requires doc == if offset > 0 then Shown(all, from, next, offset)
                    else if hasText then Shown(all, from, next, 0) + [[]] else [[]]
    ensures var line := all[next];
            var after := doc[..|doc| - 1] + [doc[|doc| - 1] + line[offset..offset + take]];
            after == if offset + take == |line| then Shown(all, from, next + 1, 0) else Shown(all, from, next, offset + take)
  {
    var line := all[next];
    assert line[..offset] + line[offset..offset + take] == line[..offset + take];
    SliceSnoc(all, from, next);
    assert doc[..|doc| - 1] == all[from..next];
    assert line[..|line|] == line;
  }

  lemma {:induction false} CollectBatchShows(all: seq<Line>, from: nat, base: Document, b: Buffer, g: Batch)
    requires b.End() == |all| && b.lines == all[b.first..] && b.first <= g.next
    requires PositionValid(all, g.next, g.offset)
    requires g.next < |all| ==> b.lines[g.next - b.first] == all[g.next]
    requires forall i :: 0 <= i < |all| ==> Plain(all[i])
    requires BatchShows(all, from, base, g)
    ensures var r := CollectBatch(b, g);
            && BatchShows(all, from, base, r) && b.first <= r.next && g.text <= r.text
            && Remaining(all, r.next, r.offset) <= Remaining(all, g.next, g.offset)
            && (g.hasText ==> r.hasText)
            && (BatchGoesOn(b, g) ==> r.hasText && Remaining(all, r.next, r.offset) < Remaining(all, g.next, g.offset)
                                      && AddToBatch(b, g).text <= r.text)
    decreases b.End() - g.next, if g.next < b.End() then |b.lines[g.next - b.first]| - g.offset else 0
  {
    hide BatchShows, InsertText, Remaining;
    if BatchGoesOn(b, g) {
      AddToBatchShows(all, from, base, b, g);
      BatchPosition(all, from, base, AddToBatch(b, g));
      CollectBatchShows(all, from, base, b, AddToBatch(b, g));
    }
  }

  lemma BatchPosition(all: seq<Line>, from: nat, base: Document, g: Batch)
    requires BatchShows(all, from, base, g)
    ensures PositionValid(all, g.next, g.offset)
  {
  }

  /** A flush with lines to show always takes at least one unit, or one empty line. */
  lemma FirstStepIsTaken(b: Buffer, next: nat, offset: nat, hasText: bool)
    requires b.first <= next < b.End()
    requires offset > 0 ==> offset < |b.lines[next - b.first]|
    ensures BatchGoesOn(b, Batch([], next, offset, hasText, 0))
  {
  }

  /** A batch takes at most 64 lines and 32 KiB, and stops before the buffer's end only when it has taken
      that many lines, or has no room left for another unit or pair with its separator. */
  lemma {:induction false} BatchIsBounded(b: Buffer, g: Batch)
    requires b.first <= g.next <= b.End() && (g.next < b.End() ==> g.offset <= |b.lines[g.next - b.first]|)
    requires |g.text| <= 16384 && g.completed <= 64
    ensures var r := CollectBatch(b, g);
            && |r.text| <= 16384 && r.completed <= 64 && r.completed - g.completed == r.next - g.next
            && (r.next == b.End() || r.completed == 64 || |r.text| >= 16382)
    decreases b.End() - g.next, if g.next < b.End() then |b.lines[g.next - b.first]| - g.offset else 0
  {
    hide UnitsTaken, IsHighSurrogate;
    BatchEnds(b, g);
    if BatchGoesOn(b, g) {
      BatchGrows(b, g);
      BatchIsBounded(b, AddToBatch(b, g));
    }
  }

  lemma BatchEnds(b: Buffer, g: Batch)
    requires b.first <= g.next <= b.End() && (g.next < b.End() ==> g.offset <= |b.lines[g.next - b.first]|)
    requires |g.text| <= 16384 && g.completed <= 64
    ensures BatchGoesOn(b, g) || g.next == b.End() || g.completed == 64 || |g.text| >= 16382
  {
  }

  lemma BatchGrows(b: Buffer, g: Batch)
    requires b.first <= g.next <= b.End() && (g.next < b.End() ==> g.offset <= |b.lines[g.next - b.first]|)
    requires BatchGoesOn(b, g) && |g.text| <= 16384 && g.completed <= 64
    ensures var r := AddToBatch(b, g);
            && |r.text| <= 16384 && r.completed <= 64 && r.completed - g.completed == r.next - g.next
  {
  }

  // ---- A flush ----

  lemma RemainingAfterSkip(all: seq<Line>, next: nat, offset: nat, later: nat)
    requires PositionValid(all, next, offset) && next <= later <= |all|
    ensures Remaining(all, later, 0) <= Remaining(all, next, 0)
    ensures next < later ==> Remaining(all, later, 0) < Remaining(all, next, offset)
    decreases later - next
  {
    if next < later { RemainingAfterSkip(all, next + 1, 0, later); }
  }

  lemma NothingTyped(all: seq<Line>, from: nat, doc: Document, next: nat, offset: nat, hasText: bool)
    requires doc != [] && from <= next && PositionValid(all, next, offset)
    requires if hasText then from < next + (if offset > 0 then 1 else 0) && doc == Shown(all, from, next, offset)
             else next == from && offset == 0 && doc == [[]]
    ensures BatchShows(all, from, doc, Batch([], next, offset, hasText, 0))
  {
    InsertNothing(doc);
  }

  lemma DropShown(all: seq<Line>, from: nat, from': nat, next: nat, offset: nat)
    requires from <= from' <= next && PositionValid(all, next, offset)
    ensures from' - from <= |Shown(all, from, next, offset)|
    ensures Shown(all, from, next, offset)[from' - from..] == Shown(all, from', next, offset)
  {
    assert all[from..next][from' - from..] == all[from'..next];
  }

  /** Dropping what has expired leaves a document that shows the range from its new start, which is
      where the buffer starts unless the buffer is full by line count. */
  lemma {:induction false} DropExpiredShows(all: seq<Line>, b: Buffer, v: View)
    requires ViewInv(all, b, v) && v.next < |all|
    ensures Flushable(b, v)
    ensures var v1 := DropExpired(b, v);
            && 0 <= v1.displayedFirst <= b.first
            && (v1.displayedFirst < b.first ==> |b.lines| == MAX_LINES)
            && (!v1.hasText ==> IsEmptyDocument(v1.doc))
            && b.first <= v1.next < |all| && PositionValid(all, v1.next, v1.offset)
            && BatchShows(all, v1.displayedFirst, v1.doc, Batch([], v1.next, v1.offset, v1.hasText, 0))
            && Remaining(all, v1.next, v1.offset) <= Remaining(all, v.next, v.offset)
  {
    hide BatchShows, Remaining, Shown;
    InvIsFlushable(all, b, v);
    var v1 := DropExpired(b, v);
    RemainingAfterSkip(all, v.next, v.offset, Max(v.next, b.first));
    if v.next >= b.first && !(v.next == b.first && v.offset == 0) && v.displayedFirst < b.first {
      DropShown(all, v.displayedFirst, b.first, v.next, v.offset);
    }
    NothingTyped(all, v1.displayedFirst, v1.doc, v1.next, v1.offset, v1.hasText);
  }

  /** The cap keeps the range's end and moves its start. */
  lemma CappedShows(all: seq<Line>, from: nat, next: nat, offset: nat)
    requires PositionValid(all, next, offset) && from < next + (if offset > 0 then 1 else 0)
    ensures var end := next + (if offset > 0 then 1 else 0);
            var from' := if end - from > MAX_LINES then end - MAX_LINES else from;
            && from <= next
            && Capped(Shown(all, from, next, offset)) == Shown(all, from', next, offset)
            && |Shown(all, from', next, offset)| == end - from'
  {
    var end := next + (if offset > 0 then 1 else 0);
    if end - from > MAX_LINES {
      assert all[from..next][end - MAX_LINES - from..] == all[end - MAX_LINES..next];
    }
  }

  /** With something left to show, the document that the flush builds shows the range from where the
      view now starts to where the batch ends. */
  lemma FlushShows(all: seq<Line>, b: Buffer, v: View)
    requires ViewInv(all, b, v) && v.next < |all|
    ensures Flushable(b, v)
    ensures var v1 := DropExpired(b, v);
            var g := CollectBatch(b, Batch([], v1.next, v1.offset, v1.hasText, 0));
            && 0 <= v1.displayedFirst <= b.first
            && (v1.displayedFirst < b.first ==> |b.lines| == MAX_LINES)
            && b.first <= g.next && PositionValid(all, g.next, g.offset) && g.hasText
            && v1.displayedFirst <= g.next && v1.displayedFirst < g.next + (if g.offset > 0 then 1 else 0)
            && InsertBatch(v1, g.text) == Shown(all, v1.displayedFirst, g.next, g.offset)
            && Remaining(all, g.next, g.offset) < Remaining(all, v.next, v.offset)
  {
    hide InsertText, Remaining, BatchGoesOn, CollectBatch, AddToBatch, InsertBatch, Shown, DropExpired;
    DropExpiredShows(all, b, v);
    var v1 := DropExpired(b, v);
    var g0 := Batch([], v1.next, v1.offset, v1.hasText, 0);
    FirstStepIsTaken(b, v1.next, v1.offset, v1.hasText);
    CollectBatchShows(all, v1.displayedFirst, v1.doc, b, g0);
    var g := CollectBatch(b, g0);
    FirstUnitIsSeparator(b, g0);
    InsertBatchTypes(v1, g.text);
  }

  /** A flush keeps the invariant; if anything was left to show, less is left afterwards. */
  lemma FlushKeepsInv(all: seq<Line>, b: Buffer, v: View)
    requires ViewInv(all, b, v)
    ensures Flushable(b, v) && ViewInv(all, b, Flush(b, v))
    ensures var v' := Flush(b, v);
            v.next < |all| ==> Remaining(all, v'.next, v'.offset) < Remaining(all, v.next, v.offset)
    ensures v.next == |all| ==> Flush(b, v) == v
  {
    hide Remaining, CollectBatch, InsertBatch, Shown, Capped, DropExpired;
    InvIsFlushable(all, b, v);
    if v.next < |all| {
      FlushShows(all, b, v);
      var v1 := DropExpired(b, v);
      var g := CollectBatch(b, Batch([], v1.next, v1.offset, v1.hasText, 0));
      CappedShows(all, v1.displayedFirst, g.next, g.offset);
    }
  }

  /** Exactly when a flush leaves lines in the document that the buffer has dropped: the buffer is full
      by line count, the view was showing dropped lines and some that are still held, and the flush has
      not caught up. */
  lemma FlushShowsExpiredIff(all: seq<Line>, b: Buffer, v: View)
    requires ViewInv(all, b, v) && v.next < |all|
    ensures Flushable(b, v)
    ensures var v' := Flush(b, v);
            v'.displayedFirst < b.first <==>
              && |b.lines| == MAX_LINES && v.displayedFirst < b.first
              && (v.next > b.first || (v.next == b.first && v.offset > 0))
              && v'.next + (if v'.offset > 0 then 1 else 0) < |all|
  {
    hide Remaining, CollectBatch, InsertBatch, Shown, Capped, Plain;
    FlushShows(all, b, v);
    var v1 := DropExpired(b, v);
    var g := CollectBatch(b, Batch([], v1.next, v1.offset, v1.hasText, 0));
    CappedShows(all, v1.displayedFirst, g.next, g.offset);
  }

  lemma FirstUnitIsSeparator(b: Buffer, g: Batch)
    requires b.first <= g.next < b.End() && g.offset <= |b.lines[g.next - b.first]|
    requires BatchGoesOn(b, g) && g.text == []
    ensures g.hasText && g.offset == 0 ==> AddToBatch(b, g).text != [] && AddToBatch(b, g).text[0] == NEWLINE
  {
  }

  // ---- Appending and clearing ----

  lemma ShownIsStable(all: seq<Line>, more: seq<Line>, from: nat, next: nat, offset: nat)
    requires from <= next && PositionValid(all, next, offset)
    ensures PositionValid(all + more, next, offset)
    ensures Shown(all + more, from, next, offset) == Shown(all, from, next, offset)
  {
    assert (all + more)[from..next] == all[from..next];
  }

  ghost predicate BufferInv(b: Buffer) {
    BufferProofs.Fits(b.lines) && b.bytes == BufferProofs.Bytes(b.lines)
  }

  lemma PushAllLeavesLines(b: Buffer, lines: seq<Line>)
    requires lines != [] || b.lines != []
    ensures PushAll(b, lines).lines != []
    decreases |lines|
  {
    if lines != [] { PushAllLeavesLines(Push(b, lines[0]), lines[1..]); }
  }

  /** An append keeps a suffix of what the buffer held and was given, and never all of nothing. */
  lemma AppendKeepsSuffix(all: seq<Line>, b: Buffer, text: Line)
    requires BufferInv(b) && b.End() == |all| && b.lines == all[b.first..]
    ensures var b' := Append(b, text);
            var all' := all + LinesFrom(text, 0);
            && BufferInv(b') && |b'.lines| <= MAX_LINES && b'.lines != []
            && b'.End() == |all'| && b'.first >= b.first && b'.lines == all'[b'.first..]
  {
    hide BufferProofs.Bytes, Append;
    var more := LinesFrom(text, 0);
    var b' := Append(b, text);
    assert BufferProofs.LongestFit(b.lines, b.lines) by { assert b.lines[0..] == b.lines; }
    BufferProofs.AppendKeepsLongestFit(b.lines, b, text);
    AppendLeavesLines(b, text);
    assert (all + more)[b.first..] == b.lines + more;
    assert (all + more)[b.first..][b'.first - b.first..] == (all + more)[b'.first..];
  }

  lemma AppendLeavesLines(b: Buffer, text: Line)
    ensures Append(b, text).lines != []
  {
    BufferProofs.LinesAreShort(text, 0);
    PushAllLeavesLines(b, LinesFrom(text, 0));
  }

  lemma AppendKeepsInv(all: seq<Line>, b: Buffer, v: View, text: Line)
    requires ViewInv(all, b, v) && BufferInv(b)
    requires forall line :: line in LinesFrom(text, 0) ==> Plain(line)
    ensures ViewInv(all + LinesFrom(text, 0), Append(b, text), v) && BufferInv(Append(b, text))
  {
    hide Shown, Append, BufferInv, Plain;
    BufferProofs.LinesAreShort(text, 0);
    AppendKeepsSuffix(all, b, text);
    if v.hasText { ShownIsStable(all, LinesFrom(text, 0), v.displayedFirst, v.next, v.offset); }
  }

  // ---- Surrogate pairs ----

  /** Every high surrogate is followed by a low one. */
  predicate PairsHighSurrogates(line: Line) {
    forall i :: 0 <= i < |line| && 0xD800 <= line[i] <= 0xDBFF ==> i + 1 < |line| && 0xDC00 <= line[i + 1] <= 0xDFFF
  }

  /** A batch boundary inside a well-formed line never falls between the halves of a pair. */
  lemma {:induction false} BatchesKeepPairsTogether(line: Line, offset: nat, available: nat)
    requires offset <= |line| && PairsHighSurrogates(line)
    requires offset > 0 ==> !(0xD800 <= line[offset - 1] <= 0xDBFF)
    ensures var end := offset + UnitsTaken(line, offset, available);
            end > 0 ==> end <= |line| && !(0xD800 <= line[end - 1] <= 0xDBFF)
  {
    var end := offset + Min(available, |line| - offset);
    if offset < end < |line| && 0xD800 <= line[end - 1] <= 0xDBFF {
      if end - 1 > offset && 0xD800 <= line[end - 2] <= 0xDBFF {
        assert 0xDC00 <= line[end - 1] <= 0xDFFF;
      }
    }
  }
}
