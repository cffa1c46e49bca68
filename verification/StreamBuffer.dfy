/** A FIFO buffer between a stream and a consumer that takes its time: every method is one uninterrupted stretch of an
    asynchronous call, and the stretches may run in any order. */
module StreamBuffer {
  import opened Outcomes
  import opened Text

  datatype Strategy = Size | Time | Bytes | Hybrid

  datatype Options = Options(useBuffer: bool, strategy: Strategy, bufferSize: int, bufferBytes: int, emitProgress: bool)

  /** A chunk as it is written; its sizes may be given or left to be counted. */
  datatype Chunk = Chunk(data: JsString, chars: Option<int>, bytes: Option<int>)

  function Chars(c: Chunk): int { if c.chars.Some? then c.chars.value else |c.data| }

  function ByteCount(c: Chunk): int { if c.bytes.Some? then c.bytes.value else ByteLength(c.data) }

  function Normalized(c: Chunk): Chunk { Chunk(c.data, Some(Chars(c)), Some(ByteCount(c))) }

  function Data(chunks: seq<Chunk>): JsString {
    if chunks == [] then [] else Data(chunks[..|chunks| - 1]) + chunks[|chunks| - 1].data
  }

  function TotalChars(chunks: seq<Chunk>): int {
    if chunks == [] then 0 else TotalChars(chunks[..|chunks| - 1]) + Chars(chunks[|chunks| - 1])
  }

  function TotalBytes(chunks: seq<Chunk>): int {
    if chunks == [] then 0 else TotalBytes(chunks[..|chunks| - 1]) + ByteCount(chunks[|chunks| - 1])
  }

  datatype FlushEvent = FlushEvent(data: JsString, chunks: seq<Chunk>, count: nat, chars: int, bytes: int)

  /** All chunks of all flushes, in order. */
  function Flushed(flushes: seq<FlushEvent>): seq<Chunk> {
    if flushes == [] then [] else Flushed(flushes[..|flushes| - 1]) + flushes[|flushes| - 1].chunks
  }

  function FlushedData(flushes: seq<FlushEvent>): JsString {
    if flushes == [] then [] else FlushedData(flushes[..|flushes| - 1]) + flushes[|flushes| - 1].data
  }

  function FlushedChars(flushes: seq<FlushEvent>): int {
    if flushes == [] then 0 else FlushedChars(flushes[..|flushes| - 1]) + flushes[|flushes| - 1].chars
  }

  function FlushedBytes(flushes: seq<FlushEvent>): int {
    if flushes == [] then 0 else FlushedBytes(flushes[..|flushes| - 1]) + flushes[|flushes| - 1].bytes
  }

  /** A flush describes its chunks, and has some. */
  predicate Describes(f: FlushEvent) {
    && f.chunks != [] && f.data == Data(f.chunks) && f.count == |f.chunks|
    && f.chars == TotalChars(f.chunks) && f.bytes == TotalBytes(f.chunks)
  }

  lemma {:induction false} SumsAppend(a: seq<Chunk>, b: seq<Chunk>)
    ensures Data(a + b) == Data(a) + Data(b)
    ensures TotalChars(a + b) == TotalChars(a) + TotalChars(b) && TotalBytes(a + b) == TotalBytes(a) + TotalBytes(b)
  {
    if b == [] {
      assert a + b == a;
    } else {
      assert (a + b)[..|a + b| - 1] == a + b[..|b| - 1];
      SumsAppend(a, b[..|b| - 1]);
    }
  }

  /** What is stored of a chunk: its data, and sizes that are the given ones or else those of its data. */
  lemma {:induction false} NormalizedMeans(c: Chunk)
    ensures Data([Normalized(c)]) == c.data
    ensures TotalChars([Normalized(c)]) == (match c.chars case Some(n) => n case None => |c.data|)
    ensures TotalBytes([Normalized(c)]) == (match c.bytes case Some(n) => n case None => |Utf8(c.data)|)
  {
    ByteLengthIsUtf8Length(c.data);
    assert [Normalized(c)][..0] == [];
  }

  /** What the flushes report is what their chunks amount to. */
  lemma {:induction false} FlushesAddUp(flushes: seq<FlushEvent>)
    requires forall i :: 0 <= i < |flushes| ==> Describes(flushes[i])
    ensures FlushedData(flushes) == Data(Flushed(flushes))
    ensures FlushedChars(flushes) == TotalChars(Flushed(flushes)) && FlushedBytes(flushes) == TotalBytes(Flushed(flushes))
  {
    if flushes != [] {
      var before, last := flushes[..|flushes| - 1], flushes[|flushes| - 1];
      FlushesAddUp(before);
      SumsAppend(Flushed(before), last.chunks);
    }
  }

  class GenAIStreamBuffer {
    const options: Options
    var queue: seq<Chunk>
    var processing: bool
    var closed: bool
    var timer: bool
    var loadedChars: int
    var loadedBytes: int

    /** The chunks written, the flushes handed to the consumer, and how many of those calls have not returned. */
    ghost var written: seq<Chunk>
    ghost var issued: seq<FlushEvent>
    ghost var inFlight: nat

    /** Nothing is lost, repeated or reordered; calls of the consumer do not overlap; the counters are exact. */
    ghost predicate Valid()
      reads this
    {
      && Flushed(issued) + queue == written
      && (forall i :: 0 <= i < |issued| ==> Describes(issued[i]))
      && loadedChars == TotalChars(written) && loadedBytes == TotalBytes(written)
      && inFlight == (if processing then 1 else 0)
    }

    constructor (options: Options)
      ensures Valid() && written == [] && issued == [] && !closed && this.options == options
    {
      this.options := options;
      queue, processing, closed, timer, loadedChars, loadedBytes := [], false, false, false, 0, 0;
      written, issued, inFlight := [], [], 0;
    }

    predicate ShouldFlush()
      reads this
    {
      match options.strategy
      case Size => |queue| >= options.bufferSize
      case Bytes => TotalBytes(queue) >= options.bufferBytes
      case Time => false
      case Hybrid => |queue| >= options.bufferSize || TotalBytes(queue) >= options.bufferBytes
    }

    /** The loops of `flush`: joined data and sums over the queue. */
    method Describe(chunks: seq<Chunk>) returns (f: FlushEvent)
      requires chunks != []
      ensures Describes(f) && f.chunks == chunks
    {
      var data: JsString, chars, bytes := [], 0, 0;
      for i := 0 to |chunks|
        invariant data == Data(chunks[..i]) && chars == TotalChars(chunks[..i]) && bytes == TotalBytes(chunks[..i])
      {
        assert chunks[..i + 1][..|chunks[..i + 1]| - 1] == chunks[..i];
        data, chars, bytes := data + chunks[i].data, chars + Chars(chunks[i]), bytes + ByteCount(chunks[i]);
      }
      assert chunks[..|chunks|] == chunks;
      return FlushEvent(data, chunks, |chunks|, chars, bytes);
    }

    /** The start of a flush: takes the queue and calls the consumer, unless a call is out or there is nothing. */
    method Flush()
      requires Valid()
      modifies `queue, `processing, `timer, `issued, `inFlight
      ensures Valid()
      ensures old(processing) || old(queue) == [] ==>
                queue == old(queue) && issued == old(issued) && processing == old(processing) && timer == old(timer)
      ensures !(old(processing) || old(queue) == []) ==>
                queue == [] && processing && !timer && |issued| == |old(issued)| + 1
                && issued[..|old(issued)|] == old(issued) && issued[|old(issued)|].chunks == old(queue)
    {
      if processing || |queue| == 0 {
        return;
      }
      processing, timer := true, false;
      var event := Describe(queue);
      issued := issued + [event];
      assert issued[..|issued| - 1] == old(issued);
      inFlight := inFlight + 1;
      queue := [];
      assert Flushed(issued) + queue == written;
    }

    /** The consumer's promise settles: unless it failed, what was written meanwhile is flushed or scheduled. */
    method FlushSettles(ok: bool)
      requires Valid() && inFlight > 0
      modifies `queue, `processing, `timer, `issued, `inFlight
      ensures Valid() && old(issued) <= issued
      ensures processing == (ok && old(queue) != [] && (!options.useBuffer || old(ShouldFlush())))
      ensures !processing && ok && options.useBuffer ==>
                && (options.strategy.Size? ==> |queue| < options.bufferSize || queue == [])
                && (options.strategy.Bytes? ==> TotalBytes(queue) < options.bufferBytes || queue == [])
      ensures processing ==> queue == [] && Flushed(issued) == written
      ensures !processing ==> queue == old(queue) && issued == old(issued)
      ensures !processing && ok && queue != [] ==> timer
      ensures !ok || old(queue) == [] ==> timer == old(timer)
    {
      processing := false;
      inFlight := inFlight - 1;
      if ok && |queue| > 0 {
        AfterEnqueue();
      }
    }

    /** What follows an accepted chunk, at once or after a progress event has been consumed. */
    method AfterEnqueue()
      requires Valid()
      modifies `queue, `processing, `timer, `issued, `inFlight
      ensures Valid() && old(issued) <= issued
      ensures old(processing) || old(queue) == [] || (options.useBuffer && !old(ShouldFlush())) ==>
                queue == old(queue) && issued == old(issued) && processing == old(processing)
      ensures !(old(processing) || old(queue) == [] || (options.useBuffer && !old(ShouldFlush()))) ==>
                processing && queue == [] && Flushed(issued) == written
      ensures options.useBuffer && !old(ShouldFlush()) ==> timer
      ensures options.useBuffer && !old(processing) && old(queue) != [] ==>
                var count, bytes := |old(queue)|, TotalBytes(old(queue));
                && (options.strategy.Size? ==> (queue == [] <==> count >= options.bufferSize))
                && (options.strategy.Bytes? ==> (queue == [] <==> bytes >= options.bufferBytes))
                && (options.strategy.Time? ==> queue == old(queue))
                && (options.strategy.Hybrid? ==> (queue == [] <==> count >= options.bufferSize || bytes >= options.bufferBytes))
    {
      if !options.useBuffer || ShouldFlush() {
        Flush();
        assert Flushed(issued) + [] == Flushed(issued);
      } else {
        timer := true;
      }
    }

    /** Accepts a chunk; with progress events on, the call is suspended before it decides about flushing. */
    method Write(chunk: Chunk) returns (r: Result<()>)
      requires Valid()
      modifies this
      ensures Valid() && closed == old(closed) && old(issued) <= issued
      ensures r.Success? <==> !old(closed)
      ensures written == if r.Success? then old(written) + [Normalized(chunk)] else old(written)
      ensures r.Success? && (options.emitProgress || old(processing)) ==> queue == old(queue) + [Normalized(chunk)]
      ensures r.Success? && !options.emitProgress && !old(processing) ==>
                var waiting := old(queue) + [Normalized(chunk)];
                && (options.strategy.Time? && options.useBuffer ==> queue == waiting && timer)
                && (options.strategy.Size? && options.useBuffer ==> (queue == [] <==> |waiting| >= options.bufferSize))
                && (options.strategy.Bytes? && options.useBuffer ==>
                      (queue == [] <==> TotalBytes(waiting) >= options.bufferBytes))
                && ((queue == [] && processing) || (queue == waiting && timer && options.useBuffer))
    {
      if closed {
        return Failure("GenAIStreamBuffer is already closed");
      }
      Enqueue(Normalized(chunk));
      if !options.emitProgress {
        AfterEnqueue();
      }
      return Success(());
    }

    method Enqueue(chunk: Chunk)
      requires Valid()
      modifies `queue, `written, `loadedChars, `loadedBytes
      ensures Valid() && written == old(written) + [chunk] && queue == old(queue) + [chunk]
    {
      loadedChars := loadedChars + Chars(chunk);
      loadedBytes := loadedBytes + ByteCount(chunk);
      queue := queue + [chunk];
      written := written + [chunk];
      assert written[..|written| - 1] == old(written);
      assert Flushed(issued) + queue == written;
    }

    method TimerFires()
      requires Valid() && timer
      modifies `queue, `processing, `timer, `issued, `inFlight
      ensures Valid() && old(issued) <= issued
      ensures processing || queue == []
    {
      Flush();
    }

    /** Closing first flushes what it can; then the buffer is closed, even if that flush is still out. */
    method BeginClose()
      requires Valid() && !closed
      modifies `queue, `processing, `timer, `issued, `inFlight
      ensures Valid() && old(issued) <= issued
      ensures processing || queue == []
    {
      Flush();
    }

    method MarkClosed()
      requires Valid()
      modifies `timer, `closed
      ensures Valid() && closed && !timer
    {
      timer, closed := false, true;
    }

    /** At every moment: issued data, then queued data, is the written data; loaded is flushed plus pending. */
    method Snapshot() returns (pendingChunks: nat, pendingChars: int, pendingBytes: int)
      requires Valid()
      ensures pendingChunks == |queue|
      ensures FlushedData(issued) + Data(queue) == Data(written)
      ensures loadedChars == FlushedChars(issued) + pendingChars && loadedBytes == FlushedBytes(issued) + pendingBytes
      ensures inFlight <= 1
    {
      FlushesAddUp(issued);
      SumsAppend(Flushed(issued), queue);
      pendingChunks, pendingChars, pendingBytes := |queue|, TotalChars(queue), TotalBytes(queue);
    }
  }
}
