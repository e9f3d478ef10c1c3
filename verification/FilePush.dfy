/**
 The pump that copies a recording to the decoder. Each turn of its loop either
 filters and writes what is in the buffer, or reads more. Reads and writes may
 be short or fail, and the thread may be stopped at any turn.
 */
module FilePush {
  import opened SourceSpans
  import opened Wrappers

  const BUFFER_SIZE := 65536

  /**
   What the outside does in one turn: whether the thread is told to stop, how much the filter keeps, the results of
   write and read, whether an error is one to be retried, and whether the driver has reported its end of file.
   */
  datatype Tick = Tick(stop: bool, keep: nat, wrote: int, read: int, retry: bool, driverEof: bool)

  /** What one turn of the loop came to. */
  datatype Event =
    | Dropped                  // the filter kept nothing of what was waiting
    | Wrote(count: nat)
    | NotWritten
    | ReadFailed               // and is to be tried again
    | Filled(count: nat)
    | AtEnd                    // not even a packet could be read

  lemma PacketsAdd(a: int, b: int)
    requires a % BLOCK_SIZE == 0 && b % BLOCK_SIZE == 0
    ensures (a + b) % BLOCK_SIZE == 0
  {
  }

  lemma FrontOf(part: seq<byte>, whole: seq<byte>, p: nat, got: nat, n: nat)
    requires n <= got <= |part| && (got > 0 ==> p + got <= |whole| && part[..got] == whole[p..p + got])
    ensures n > 0 ==> part[..n] == whole[p..p + n]
  {
    assert n > 0 ==> part[..n] == part[..got][..n];
  }

  lemma GrowsByPackets(spans: seq<Span>, file: seq<byte>, pos: nat, size: nat, n: nat, part: seq<byte>)
    requires Ordered(spans) && (spans == [] || n == 0 || (n <= size && InOneSpan(spans, pos, size)))
    requires if n > 0 then pos + n <= |file| && part == file[pos..pos + n] else part == []
    ensures Stream(spans, file, pos + n) == Stream(spans, file, pos) + part
  {
    if n > 0 {
      StreamGrows(spans, file, pos, n, size);
    }
  }

  class FilePushThread {
    const file: seq<byte>
    const spans: seq<Span>
    /** A scatter-gather source hands out spans; otherwise the file is read from front to back. */
    const sg: bool
    /** The filter of the base class keeps everything. */
    const keepsAll: bool
    const streamMode: bool
    const pvrCommit: bool

    const buffer: array<byte>
    var bufStart: nat
    var filterEnd: nat
    var bufEnd: nat
    var position: nat
    var spanRemaining: nat

    /** What has been written, what the filter has been given, and what it has kept. */
    ghost var written: seq<byte>
    ghost var filtered: seq<byte>
    ghost var kept: seq<byte>

    constructor (file: seq<byte>, spans: seq<Span>, sg: bool, keepsAll: bool, streamMode: bool, pvrCommit: bool)
      requires Regular(spans) && (!sg ==> spans == [])
      ensures Valid() && written == [] && position == 0 && fresh(buffer)
      ensures this.file == file && this.spans == spans && this.sg == sg && this.keepsAll == keepsAll
      ensures this.streamMode == streamMode && this.pvrCommit == pvrCommit && bufStart == bufEnd
    {
      this.file, this.spans, this.sg, this.keepsAll := file, spans, sg, keepsAll;
      this.streamMode, this.pvrCommit := streamMode, pvrCommit;
      buffer := new byte[BUFFER_SIZE](i => 0);
      bufStart, filterEnd, bufEnd, position, spanRemaining := 0, 0, 0, 0, 0;
      written, filtered, kept := [], [], [];
      new;
      NothingLater(spans, file, 0, 0);
    }

    ghost predicate IndicesOk()
      reads this
    {
      buffer.Length == BUFFER_SIZE && bufStart <= filterEnd <= bufEnd <= BUFFER_SIZE
    }

    /** The position is at a packet, and what is left of the current span lies in one span. */
    ghost predicate PositionOk()
      reads this
    {
      && Regular(spans) && (!sg ==> spans == [])
      && position % BLOCK_SIZE == 0 && spanRemaining % BLOCK_SIZE == 0
      && (spanRemaining > 0 ==> InOneSpan(spans, position, spanRemaining))
    }

    /**
     Every byte of the stream in front of the position was given to the filter once and in order, or still waits for
     it.
     */
    ghost predicate DataOk()
      requires IndicesOk()
      reads this, buffer
    {
      && filtered + buffer[filterEnd..bufEnd] == Stream(spans, file, position)
      && written + buffer[bufStart..filterEnd] == kept
      && (keepsAll ==> kept == filtered)
    }

    ghost predicate Valid()
      reads this, buffer
    {
      IndicesOk() && PositionOk() && DataOk()
    }

    /** With a filter that keeps everything, what has been written is a prefix of the stream. */
    lemma WrittenIsPrefix(pos: nat)
      requires Valid() && keepsAll && position <= pos
      ensures written <= Stream(spans, file, pos)
    {
      assert written <= kept;
      assert filtered <= Stream(spans, file, position);
      StreamIsMonotone(spans, file, position, pos);
    }

    /** How much of the data that has not been filtered yet the filter keeps. */
    function Passed(tick: Tick): (n: nat)
      requires IndicesOk()
      reads this
      ensures n <= bufEnd - filterEnd
    {
      if keepsAll || tick.keep > bufEnd - filterEnd then bufEnd - filterEnd else tick.keep
    }

    /** How much there is to be written after that. */
    function Pending(tick: Tick): (n: nat)
      requires IndicesOk()
      reads this
    {
      filterEnd - bufStart + Passed(tick)
    }

    /** Give the data that has not been filtered yet to the filter, and drop the tail that it does not keep. */
    method Filter(tick: Tick)
      requires Valid()
      modifies this`bufEnd, this`filterEnd, this`filtered, this`kept
      ensures Valid() && filterEnd == bufEnd == bufStart + old(Pending(tick))
      ensures filtered == old(filtered + buffer[filterEnd..bufEnd])
      ensures kept == old(kept + buffer[filterEnd..filterEnd + Passed(tick)])
      ensures bufEnd - old(filterEnd) ==
        if keepsAll then old(bufEnd - filterEnd) else Min(tick.keep, old(bufEnd - filterEnd))
    {
      hide Stream, InOneSpan;
      var len := bufEnd - filterEnd;
      var res := if keepsAll || tick.keep > len then len else tick.keep;
      ghost var waiting, passed := buffer[filterEnd..bufEnd], buffer[filterEnd..filterEnd + res];
      assert written + buffer[bufStart..filterEnd + res] == kept + passed by {
        assert buffer[bufStart..filterEnd] + passed == buffer[bufStart..filterEnd + res];
        Associative(written, buffer[bufStart..filterEnd], passed);
      }
      filtered := filtered + waiting;
      kept := kept + passed;
      assert buffer[filterEnd + res..filterEnd + res] == [];
      bufEnd := filterEnd + res;
      filterEnd := bufEnd;
    }

    /** Write the filtered data, as much of it as the kernel takes. */
    method Write(tick: Tick) returns (go: bool)
      requires Valid() && filterEnd == bufEnd && bufStart < bufEnd
      modifies this`bufStart, this`written
      ensures Valid()
      ensures var w := if tick.wrote > 0 then Min(tick.wrote, bufEnd - old(bufStart)) else 0;
        bufStart == old(bufStart) + w && written == old(written) + buffer[old(bufStart)..bufStart]
      ensures go == (tick.wrote > 0 || (tick.wrote < 0 && tick.retry))
    {
      hide Stream, InOneSpan;
      var len := bufEnd - bufStart;
      if tick.wrote <= 0 {
        return tick.wrote < 0 && tick.retry;
      }
      var w := if tick.wrote > len then len else tick.wrote;
      Associative(written, buffer[bufStart..bufStart + w], buffer[bufStart + w..bufEnd]);
      assert buffer[bufStart..bufStart + w] + buffer[bufStart + w..bufEnd] == buffer[bufStart..bufEnd];
      written := written + buffer[bufStart..bufStart + w];
      bufStart := bufStart + w;
      return true;
    }

    /** Ask for the next span when the current one is used up. */
    method NextSpan()
      requires Valid() && bufStart == bufEnd
      modifies this`position, this`spanRemaining, this`bufStart, this`filterEnd, this`bufEnd
      ensures Valid() && old(position) <= position && bufStart == filterEnd == bufEnd == 0
      ensures written == old(written)
      ensures sg && spanRemaining == 0 ==> spans != [] && forall x :: x >= position ==> !InSpan(spans, x)
    {
      ghost var before := Stream(spans, file, position);
      bufStart, filterEnd, bufEnd := 0, 0, 0;
      if sg && spanRemaining == 0 {
        var start, size := GetNextSourceSpan(spans, position);
        assert size % BLOCK_SIZE == 0;
        if spans != [] {
          PlayedSkips(spans, file, position, start);
        }
        position, spanRemaining := start, size;
      }
      assert Stream(spans, file, position) == before;
    }

    /** How much may be read: a buffer full, not past the end of the span, and whole packets only. */
    function MaxRead(): (n: nat)
      reads this
      ensures n <= BUFFER_SIZE && n % BLOCK_SIZE == 0
      ensures n > (if sg then Min(BUFFER_SIZE, spanRemaining) else BUFFER_SIZE) - BLOCK_SIZE
      ensures sg ==> n <= spanRemaining
      ensures spanRemaining % BLOCK_SIZE == 0 ==> (n == 0 <==> sg && spanRemaining == 0)
    {
      var n := if sg && BUFFER_SIZE > spanRemaining then spanRemaining else BUFFER_SIZE;
      n - n % BLOCK_SIZE
    }

    /** What the source's read returns: as much as it likes of what there is, or an error. */
    function ReadCount(count: nat, tick: Tick): (n: int)
      reads this
    {
      if tick.read < 0 then -1 else if position >= |file| then 0 else Min(tick.read, Min(count, |file| - position))
    }

    /** The source's read: some of the bytes at the position, or an error. */
    method ReadSource(count: nat, tick: Tick) returns (n: int)
      requires count <= buffer.Length
      modifies buffer
      ensures n == ReadCount(count, tick)
      ensures n <= count && (n > 0 ==> position + n <= |file| && buffer[..n] == file[position..position + n])
    {
      if tick.read < 0 || position >= |file| {
        return if tick.read < 0 then -1 else 0;
      }
      n := Min(tick.read, Min(count, |file| - position));
      forall k | 0 <= k < n {
        buffer[k] := file[position + k];
      }
    }

    /** Read more. The result says whether there was an error to be retried. */
    method Fill(tick: Tick) returns (again: bool)
      requires Valid() && bufStart == bufEnd == filterEnd == 0
      modifies this`bufEnd, this`position, this`spanRemaining, buffer
      ensures Valid() && old(position) <= position && written == old(written)
      ensures var n := if old(MaxRead()) > 0 then old(ReadCount(MaxRead(), tick)) else 0;
        && (again <==> n < 0 && tick.retry)
        && bufEnd == (if n < 0 then 0 else n - n % BLOCK_SIZE)
      ensures position == old(position) + bufEnd && bufStart == 0
        && (bufEnd == 0 ==> spanRemaining == old(spanRemaining))
    {
      hide Stream, InOneSpan;
      var maxread := MaxRead();
      var n := 0;
      if maxread > 0 {
        n := ReadSource(maxread, tick);
      }
      again := n < 0 && tick.retry;
      if n < 0 {
        n := 0;
      }
      ghost var got := n;
      n := n - n % BLOCK_SIZE;
      assert filtered == Stream(spans, file, position) && written == kept by {
        assert filtered + buffer[0..0] == filtered && written + buffer[0..0] == written;
      }
      assert Stream(spans, file, position + n) == Stream(spans, file, position) + buffer[..n] by {
        FrontOf(buffer[..], file, position, got, n);
        GrowsByPackets(spans, file, position, spanRemaining, n, buffer[..n]);
      }
      Advance(n);
    }

    /** n whole packets have been read to the front of the buffer. */
    method Advance(n: nat)
      requires IndicesOk() && PositionOk() && bufStart == bufEnd == filterEnd == 0
      requires n % BLOCK_SIZE == 0 && n <= BUFFER_SIZE && (sg ==> n <= spanRemaining)
      requires filtered == Stream(spans, file, position) && written == kept && (keepsAll ==> kept == filtered)
      requires filtered + buffer[..n] == Stream(spans, file, position + n)
      modifies this`bufEnd, this`position, this`spanRemaining
      ensures Valid() && bufEnd == n && position == old(position) + n
        && (n == 0 ==> spanRemaining == old(spanRemaining))
    {
      hide Stream;
      ghost var from, size, data := position, spanRemaining, buffer[..n];
      bufEnd := n;
      position := position + n;
      if sg {
        spanRemaining := spanRemaining - n;
      }
      assert PositionOk() by {
        SpanShrinks(spans, from, size, n);
        PacketsAdd(from, n);
        PacketsAdd(size, 0 - n);
      }
      assert DataOk() by {
        assert buffer[0..n] == data && written + buffer[0..0] == written;
      }
    }

    /** All that has been read is written, and there is nothing more to read. */
    ghost predicate Done()
      reads this
    {
      bufStart == filterEnd == bufEnd && NothingLeft(spans, file, position)
    }

    /** The first half of a turn: filter and write what is in the buffer. */
    method Flush(tick: Tick) returns (go: bool, ghost event: Event)
      requires Valid() && bufStart != bufEnd
      modifies this`bufStart, this`filterEnd, this`bufEnd, this`written, this`filtered, this`kept
      ensures Valid() && position == old(position) && old(written) <= written
        && |written| == |old(written)| + (bufStart - old(bufStart))
      ensures event ==
        if old(Pending(tick)) == 0 then Dropped
        else if tick.wrote > 0 then Wrote(bufStart - old(bufStart))
        else NotWritten
      ensures event.Wrote? ==> event.count == Min(tick.wrote, old(Pending(tick)))
      ensures bufStart == old(bufStart) + if event.Wrote? then event.count else 0
      ensures go <==> event != NotWritten || (tick.wrote < 0 && tick.retry)
    {
      Filter(tick);
      if bufStart == bufEnd {
        return true, Dropped;
      }
      ghost var from := bufStart;
      go := Write(tick);
      event := if tick.wrote > 0 then Wrote(bufStart - from) else NotWritten;
    }

    /**
     The second half of a turn: read more. With a read of at least a packet, the end is found exactly where it is; a
     shorter read is always taken for it, and so is an error that is not to be retried.
     */
    method Refill(tick: Tick) returns (go: bool, ghost event: Event)
      requires Valid() && bufStart == bufEnd
      modifies this`bufStart, this`filterEnd, this`bufEnd, this`position, this`spanRemaining, buffer
      ensures Valid() && written == old(written) && old(position) <= position
      ensures bufStart == 0 && bufEnd % BLOCK_SIZE == 0
      ensures event == if bufEnd > 0 then Filled(bufEnd) else if EndRead(tick) then AtEnd else ReadFailed
      ensures bufEnd > 0 ==> tick.read >= BLOCK_SIZE
      ensures tick.read >= BLOCK_SIZE ==> (event.AtEnd? <==> Done())
      ensures go <==> event != AtEnd || (pvrCommit && !tick.driverEof) || streamMode
    {
      hide Stream, InOneSpan;
      NextSpan();
      var again := Fill(tick);
      if again {
        return true, ReadFailed;
      }
      if bufEnd == 0 {
        event := AtEnd;
        if pvrCommit && !tick.driverEof {
          return true, AtEnd;
        }
        return streamMode, AtEnd;
      }
      return true, Filled(bufEnd);
    }

    /** A read that brought nothing is taken for the end, unless it failed and is to be tried again. */
    predicate EndRead(tick: Tick)
      reads this
    {
      tick.read >= 0 || !tick.retry || (sg && spanRemaining == 0)
    }

    /** One turn of the loop; go says whether the loop goes on. What is waiting is written before more is read. */
    method Turn(tick: Tick) returns (go: bool, ghost event: Event)
      requires Valid()
      modifies this`bufStart, this`filterEnd, this`bufEnd, this`position, this`spanRemaining
      modifies this`written, this`filtered, this`kept, buffer
      ensures Valid() && old(written) <= written && old(position) <= position
      ensures |written| == |old(written)| + if event.Wrote? then event.count else 0
      ensures event.Dropped? || event.Wrote? || event.NotWritten? <==> old(bufStart != bufEnd)
      ensures old(bufStart != bufEnd) ==>
        if old(Pending(tick)) == 0 then event.Dropped?
        else if tick.wrote > 0 then event == Wrote(Min(tick.wrote, old(Pending(tick))))
        else event.NotWritten?
      ensures old(bufStart == bufEnd) ==>
        && bufStart == 0
        && event == if bufEnd > 0 then Filled(bufEnd) else if EndRead(tick) then AtEnd else ReadFailed
      ensures event.Filled? ==> tick.read >= BLOCK_SIZE && event.count >= BLOCK_SIZE
      ensures old(bufStart == bufEnd) && 0 <= tick.read < BLOCK_SIZE ==> event.AtEnd?
      ensures old(bufStart == bufEnd) && tick.read >= BLOCK_SIZE ==> (event.AtEnd? <==> Done())
      ensures !go <==>
        || (event.NotWritten? && !(tick.wrote < 0 && tick.retry))
        || (event.AtEnd? && !(pvrCommit && !tick.driverEof) && !streamMode)
    {
      hide Stream, InOneSpan;
      if bufStart != bufEnd {
        go, event := Flush(tick);
        return;
      }
      go, event := Refill(tick);
    }

    /** When the buffer is empty, and the filter keeps everything, all that has been read is written. */
    lemma EmptyIsWritten()
      requires Valid() && bufStart == bufEnd && keepsAll
      ensures written == Stream(spans, file, position)
      ensures Stream(spans, file, Align(|file|)) <= written <==> !PacketLeft(spans, file, position)
      ensures Done() ==> Stream(spans, file, Align(|file|)) <= written
      ensures Done() && |file| % BLOCK_SIZE == 0 ==> written == Stream(spans, file, |file|)
    {
      assert filtered + buffer[filterEnd..bufEnd] == filtered && written + buffer[bufStart..filterEnd] == written;
      CompleteIffNoPacketLeft(spans, file, position);
      if Done() {
        NothingLeftMeans(spans, file, position);
      }
    }

    /** A first turn that ends the run before anything is written. */
    predicate EndsAtOnce(ticks: seq<Tick>)
      reads this
    {
      && ticks != [] && !ticks[0].stop && bufStart == bufEnd && !streamMode && !pvrCommit
      && (0 <= ticks[0].read < BLOCK_SIZE || (ticks[0].read < 0 && !ticks[0].retry))
    }

    /**
     The thread. However it goes, and wherever it stops, what it has written only grows, and with a filter that
     keeps everything it is a prefix of what is to be played. It can be stopped and run again. When it takes the end
     to be reached, it has written everything exactly if no packet is left; that is so if its last read was not cut
     short, but a short read or an error ends it anywhere.
     */
    method Thread(ticks: seq<Tick>) returns (ghost turns: nat, ghost atEnd: bool)
      requires Valid()
      modifies this`bufStart, this`filterEnd, this`bufEnd, this`position, this`spanRemaining
      modifies this`written, this`filtered, this`kept, buffer
      ensures Valid() && old(written) <= written && old(position) <= position
      ensures keepsAll ==> forall pos: nat :: position <= pos ==> written <= Stream(spans, file, pos)
      ensures turns <= |ticks| && (atEnd ==> turns > 0 && bufStart == filterEnd == bufEnd)
      ensures atEnd && keepsAll ==>
        && written == Stream(spans, file, position)
        && (Stream(spans, file, Align(|file|)) <= written <==> !PacketLeft(spans, file, position))
      ensures atEnd && keepsAll && ticks[turns - 1].read >= BLOCK_SIZE ==>
        && Stream(spans, file, Align(|file|)) <= written
        && (|file| % BLOCK_SIZE == 0 ==> written == Stream(spans, file, |file|))
      ensures turns < |ticks| && !ticks[turns].stop ==> turns > 0 && (atEnd || ticks[turns - 1].wrote <= 0)
      ensures old(EndsAtOnce(ticks)) ==> atEnd && turns == 1 && written == old(written)
    {
      hide Stream, InOneSpan;
      spanRemaining := 0;
      turns, atEnd := 0, false;
      for k := 0 to |ticks|
        invariant Valid() && old(written) <= written && old(position) <= position && turns == k && !atEnd
        invariant k == 0 ==> written == old(written) && bufStart == old(bufStart) && bufEnd == old(bufEnd)
        invariant old(EndsAtOnce(ticks)) ==> k == 0
      {
        if ticks[k].stop {
          break;
        }
        ghost var event;
        var go;
        go, event := Turn(ticks[k]);
        turns := k + 1;
        if !go {
          atEnd := event.AtEnd?;
          if atEnd && keepsAll {
            EmptyIsWritten();
          }
          break;
        }
      }
      if keepsAll {
        forall pos: nat | position <= pos
          ensures written <= Stream(spans, file, pos)
        {
          WrittenIsPrefix(pos);
        }
      }
    }
  }

  /** A file of two packets, read short at its beginning: the run ends with nothing written. */
  method ShortReadEndsRun() returns (t: FilePushThread)
    ensures |t.file| == 2 * BLOCK_SIZE && t.spans == [] && t.keepsAll && t.written == []
    ensures PacketLeft(t.spans, t.file, t.position)
  {
    hide FilePushThread.IndicesOk, FilePushThread.PositionOk, FilePushThread.DataOk, Stream, Align;
    t := new FilePushThread(seq(2 * BLOCK_SIZE, i => 0), [], false, true, false, false);
    ghost var turns, atEnd := t.Thread([Tick(false, 0, 0, 100, false, true)]);
    NothingStreamed(t.file, t.position);
    assert IsPacket(t.spans, t.file, t.position, 0);
  }

  lemma NothingStreamed(file: seq<byte>, pos: nat)
    requires file != [] && Stream([], file, pos) == []
    ensures pos == 0
  {
  }
}
