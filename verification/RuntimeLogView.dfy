/** The log buffer and the view as objects: what their loops leave in their fields is what the model's
    functions say. */
module RuntimeLogView {
  import opened Model = RuntimeLogModel
  import BufferProofs = RuntimeLogBufferProofs

  class RuntimeLogBuffer {
    var lines: seq<Line>
    var bytes: int
    var first: nat

    function Value(): Buffer
      reads this
    {
      Buffer(lines, bytes, first)
    }

    constructor ()
      ensures Value() == EMPTY_BUFFER
    {
      lines, bytes, first := [], 0, 0;
    }

    method PushLine(line: Line)
      modifies this
      ensures Value() == Push(old(Value()), line)
    {
      var size := Cost(line);
      while lines != [] && (|lines| >= MAX_LINES || bytes + size > MAX_BYTES)
        invariant Evict(Value(), size) == Evict(old(Value()), size)
        decreases |lines|
      {
        bytes := bytes - Cost(lines[0]);
        lines := lines[1..];
        first := first + 1;
      }
      bytes := bytes + size;
      lines := lines + [line];
    }

    method AppendText(text: Line)
      modifies this
      ensures Value() == Append(old(Value()), text)
      ensures var kept := old(lines) + LinesFrom(text, 0);
              BufferProofs.Fits(old(lines)) && old(bytes) == BufferProofs.Bytes(old(lines)) ==>
                BufferProofs.LongestFit(kept, lines) && bytes == BufferProofs.Bytes(lines)
                && first + |lines| == old(first) + |kept|
    {
      ghost var all := LinesFrom(text, 0);
      var begin := 0;
      var more := true;
      while more
        invariant begin <= |text|
        invariant PushAll(old(Value()), all) == if more then PushAll(Value(), LinesFrom(text, begin)) else Value()
        decreases more, |text| - begin
      {
        var newline := IndexOfNewline(text, begin);
        var end := if newline < 0 then |text| else newline;
        PushLine(StoredLine(text, begin, end));
        if newline < 0 {
          more := false;
        } else {
          begin := newline + 1;
        }
      }
      if BufferProofs.Fits(old(lines)) && old(bytes) == BufferProofs.Bytes(old(lines)) {
        assert old(lines)[0..] == old(lines);
        BufferProofs.AppendKeepsLongestFit(old(lines), old(Value()), text);
      }
    }

    method ClearLines()
      modifies this
      ensures Value() == Clear(old(Value()))
    {
      first := first + |lines|;
      lines := [];
      bytes := 0;
    }

    method Text() returns (text: Line)
      ensures text == Join(lines)
    {
      text := [];
      var i := 0;
      while i < |lines|
        invariant 0 <= i <= |lines|
        invariant text == Join(lines[..i])
      {
        assert lines[..i + 1][..i] == lines[..i];
        if i > 0 { text := text + [NEWLINE]; }
        text := text + lines[i];
        i := i + 1;
      }
      assert lines[..|lines|] == lines;
    }
  }

  lemma CollectStep(b: Buffer, g: Batch)
    requires b.first <= g.next <= b.End()
    requires g.next < b.End() ==> g.offset <= |b.lines[g.next - b.first]|
    ensures CollectBatch(b, g) == if BatchGoesOn(b, g) then CollectBatch(b, AddToBatch(b, g)) else g
  {
  }

  class LogView {
    const buffer: RuntimeLogBuffer
    var doc: Document
    var next: nat
    var displayedFirst: int
    var offset: nat
    var hasText: bool

    function Value(): View
      reads this
    {
      View(doc, next, displayedFirst, offset, hasText)
    }

    constructor (buffer: RuntimeLogBuffer)
      ensures this.buffer == buffer && Value() == Reset(buffer.Value())
    {
      this.buffer := buffer;
      doc, next, displayedFirst, offset, hasText := [[]], buffer.first, buffer.first, 0, false;
    }

    method ResetDisplay()
      modifies this
      ensures Value() == Reset(buffer.Value())
    {
      doc, next, displayedFirst, offset, hasText := [[]], buffer.first, buffer.first, 0, false;
    }

    /** Clearing the cache resets the view with it. */
    method ClearCached()
      modifies this, buffer
      ensures buffer.Value() == Clear(old(buffer.Value())) && Value() == Reset(buffer.Value())
    {
      buffer.ClearLines();
      ResetDisplay();
    }

    /** The batch loop: what to insert, and the position after it. */
    method Collect() returns (batch: Line, completed: nat)
      requires buffer.first <= next <= buffer.Value().End()
      requires next < buffer.Value().End() ==> offset <= |buffer.lines[next - buffer.first]|
      modifies this`next, this`offset, this`hasText
      ensures CollectBatch(buffer.Value(), Batch([], old(next), old(offset), old(hasText), 0))
           == Batch(batch, next, offset, hasText, completed)
    {
      hide CollectBatch, UnitsTaken;
      batch, completed := [], 0;
      ghost var b := buffer.Value();
      ghost var start := Batch([], next, offset, hasText, 0);
      var end := buffer.first + |buffer.lines|;
      while next < end && completed < BATCH_LINES
        invariant buffer.Value() == b && b.first <= next <= end
        invariant next < end ==> offset <= |b.lines[next - b.first]|
        invariant CollectBatch(b, start) == CollectBatch(b, Batch(batch, next, offset, hasText, completed))
        decreases end - next, if next < end then |b.lines[next - b.first]| - offset else 0
      {
        ghost var g := Batch(batch, next, offset, hasText, completed);
        CollectStep(b, g);
        var line := buffer.lines[next - buffer.first];
        var separator := offset == 0 && hasText;
        var available := BATCH_UNITS - |batch| - (if separator then 1 else 0);
        if available <= 0 { break; }
        var take := UnitsTaken(line, offset, available);
        if take == 0 && offset < |line| { break; }
        assert BatchGoesOn(b, g);
        batch := batch + (if separator then [NEWLINE] else []) + line[offset..offset + take];
        hasText := true;
        offset := offset + take;
        if offset == |line| {
          next := next + 1;
          completed := completed + 1;
          offset := 0;
        }
        assert AddToBatch(b, g) == Batch(batch, next, offset, hasText, completed);
      }
      CollectStep(b, Batch(batch, next, offset, hasText, completed));
    }

    method DropExpiredBlocks()
      requires Flushable(buffer.Value(), Value())
      modifies this
      ensures Value() == DropExpired(buffer.Value(), old(Value()))
    {
      if next < buffer.first || (next == buffer.first && offset == 0) {
        ResetDisplay();
      } else if displayedFirst < buffer.first && |buffer.lines| < MAX_LINES {
        doc := doc[buffer.first - displayedFirst..];
        displayedFirst := buffer.first;
      }
    }

    method FlushPending(visible: bool)
      requires Flushable(buffer.Value(), Value())
      modifies this
      ensures Value() == if visible then Flush(buffer.Value(), old(Value())) else old(Value())
    {
      hide CollectBatch, DropExpired, InsertText, AppendPlainText, Capped;
      if !visible { return; }
      var end := buffer.first + |buffer.lines|;
      if next == end && displayedFirst == buffer.first { return; }
      DropExpiredBlocks();
      ghost var v1 := Value();
      var continuing := offset != 0;
      var separator := hasText && !continuing;
      var batch, completed := Collect();
      var shown: Document;
      if !continuing && !(separator && IsEmptyDocument(doc)) {
        shown := AppendPlainText(doc, if separator && batch != [] then batch[1..] else batch);
      } else {
        shown := InsertText(doc, batch);
      }
      assert shown == InsertBatch(v1, batch);
      doc := Capped(shown);
      displayedFirst := next + (if offset != 0 then 1 else 0) - |doc|;
    }
  }
}
